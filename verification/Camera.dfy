/**
 How CCamera builds its frustum, and what that means for InView: which cameras never cull
 a box that has a point in view.
 */
module Camera {
  import opened Vectors
  import opened Culling

  datatype Style = Perspective | Orthographic

  /**
   A camera's frame and lens. The tangents are tan(halfFov) and tan(aspectRatio * halfFov); the
   horizontal half angle is atan(tanHalfFov * aspectRatio), so its tangent is their product.
   */
  datatype Lens = Lens(
    projection: Style, pos: Vec, forward: Vec, right: Vec, up: Vec,
    tanHalfFov: real, aspectRatio: real, tanWide: real,
    xScale: real, yScale: real, zNear: real, zFar: real)
  {
    predicate Orthonormal() {
      && forward.SqLength() == 1.0 && right.SqLength() == 1.0 && up.SqLength() == 1.0
      && forward.Dot(right) == 0.0 && forward.Dot(up) == 0.0 && right.Dot(up) == 0.0
    }

    /** The far plane is not before the near one. A perspective lens is open and in front of the camera; the wide tangent
        has any sign: past a right angle it is negative. An orthographic one, as the shadow camera has, may start at the
        camera or behind it; side offsets belong to it only. */
    predicate IsOpen() {
      && zNear <= zFar
      && (projection.Perspective? ==>
            0.0 < zNear && tanHalfFov > 0.0 && aspectRatio > 0.0 && xScale == 0.0 && yScale == 0.0)
      && (projection.Orthographic? ==> xScale >= 0.0 && yScale >= 0.0)
    }

    predicate Valid() {
      Orthonormal() && IsOpen()
    }

    /** The tangent of half the horizontal angle. */
    function TanHalfHFov(): real {
      tanHalfFov * aspectRatio
    }

    function XSize(depth: real): real {
      if projection.Perspective? then depth * TanHalfHFov() else xScale
    }

    function YSize(depth: real): real {
      if projection.Perspective? then depth * tanHalfFov else yScale
    }

    /** A point by its depth and its place to the right and up. */
    function At(depth: real, x: real, y: real): Vec {
      pos.Plus(forward.Times(depth)).Plus(right.Times(x)).Plus(up.Times(y))
    }

    /** The normal of a side plane before normalisation. */
    function Side(i: nat): Vec {
      var forwardx, forwardy := forward.Times(-1.0).Times(tanWide), forward.Times(-1.0).Times(tanHalfFov);
      if i == RGT then forwardx.Plus(right)
      else if i == LFT then forwardx.Minus(right)
      else if i == TOP then forwardy.Plus(up)
      else forwardy.Minus(up)
    }
  }

  /** An exact inverse square root; the engine's is an approximation. */
  ghost predicate IsInverseRoot(isqrt: real -> real) {
    forall x: real :: x > 0.0 ==> isqrt(x) > 0.0 && isqrt(x) * isqrt(x) * x == 1.0
  }

  function Unit(isqrt: real -> real, v: Vec): Vec {
    v.Times(isqrt(v.SqLength()))
  }

  function Planes(isqrt: real -> real, l: Lens): seq<Vec> {
    (if l.projection.Perspective? then
       [Unit(isqrt, l.Side(LFT)), Unit(isqrt, l.Side(RGT)), Unit(isqrt, l.Side(TOP)), Unit(isqrt, l.Side(BOT))]
     else
       [l.right.Times(-1.0), l.right, l.up, l.up.Times(-1.0)])
    + [l.forward.Times(-1.0), l.forward]
  }

  function Verts(l: Lens): seq<Vec> {
    var n, f := l.zNear, l.zFar;
    [l.At(n, -l.XSize(n), l.YSize(n)), l.At(n, l.XSize(n), l.YSize(n)),
     l.At(n, l.XSize(n), -l.YSize(n)), l.At(n, -l.XSize(n), -l.YSize(n)),
     l.At(f, -l.XSize(f), l.YSize(f)), l.At(f, l.XSize(f), l.YSize(f)),
     l.At(f, l.XSize(f), -l.YSize(f)), l.At(f, -l.XSize(f), -l.YSize(f))]
  }

  function Edges(isqrt: real -> real, v: seq<Vec>): seq<Vec>
    requires |v| == 8
  {
    [Unit(isqrt, v[1].Minus(v[0])), Unit(isqrt, v[0].Minus(v[3])), Unit(isqrt, v[4].Minus(v[0])),
     Unit(isqrt, v[5].Minus(v[1])), Unit(isqrt, v[6].Minus(v[2])), Unit(isqrt, v[7].Minus(v[3]))]
  }

  /** UpdateFrustum */
  function FrustumOf(isqrt: real -> real, l: Lens): (f: Frustum)
    ensures f.Valid()
  {
    Frustum(Verts(l), Planes(isqrt, l), Edges(isqrt, Verts(l)), l.xScale, l.yScale, l.zNear, l.zFar)
  }

  // ---------------------------------------------------------------- corners against planes

  lemma DotAt(l: Lens, depth: real, x: real, y: real)
    requires l.Orthonormal()
    ensures var d := l.At(depth, x, y).Minus(l.pos);
            d.Dot(l.forward) == depth && d.Dot(l.right) == x && d.Dot(l.up) == y
  {
    var d := l.At(depth, x, y).Minus(l.pos);
    DotFrame(l.forward, l.forward, l.right, l.up, depth, x, y, d);
    DotFrame(l.right, l.forward, l.right, l.up, depth, x, y, d);
    DotFrame(l.up, l.forward, l.right, l.up, depth, x, y, d);
    DotSymmetric(l.forward, l.right);
    DotSymmetric(l.forward, l.up);
    DotSymmetric(l.right, l.up);
  }

  lemma DotFrame(n: Vec, f: Vec, r: Vec, u: Vec, depth: real, x: real, y: real, d: Vec)
    requires d == f.Times(depth).Plus(r.Times(x)).Plus(u.Times(y))
    ensures d.Dot(n) == depth * f.Dot(n) + x * r.Dot(n) + y * u.Dot(n)
  {
    DotTimes(n, f, depth);
    DotTimes(n, r, x);
    DotTimes(n, u, y);
  }

  /** The normals, before they are normalised, against a point at this depth and place. */
  function Slope(l: Lens, i: nat, depth: real, x: real, y: real): real {
    if i == BCK then depth
    else if l.projection.Orthographic? then (if i == LFT then -x else if i == RGT then x else if i == TOP then y else -y)
    else if i == LFT then -(l.tanWide * depth) - x
    else if i == RGT then -(l.tanWide * depth) + x
    else if i == TOP then -(l.tanHalfFov * depth) + y
    else -(l.tanHalfFov * depth) - y
  }

  lemma SideDot(l: Lens, i: nat, d: Vec)
    requires i <= BOT
    ensures d.Dot(l.Side(i)) ==
            if i == LFT then -(l.tanWide * d.Dot(l.forward)) - d.Dot(l.right)
            else if i == RGT then -(l.tanWide * d.Dot(l.forward)) + d.Dot(l.right)
            else if i == TOP then -(l.tanHalfFov * d.Dot(l.forward)) + d.Dot(l.up)
            else -(l.tanHalfFov * d.Dot(l.forward)) - d.Dot(l.up)
  {
    var back := l.forward.Times(-1.0);
    DotTimes(d, l.forward, -1.0);
    DotTimes(d, back, l.tanWide);
    DotTimes(d, back, l.tanHalfFov);
    DotPlus(d, back.Times(l.tanWide), l.right);
    DotMinus(d, back.Times(l.tanWide), l.right);
    DotPlus(d, back.Times(l.tanHalfFov), l.up);
    DotMinus(d, back.Times(l.tanHalfFov), l.up);
  }

  lemma SideIsNotZero(l: Lens, i: nat)
    requires l.Orthonormal() && i <= BOT
    ensures l.Side(i).SqLength() > 0.0
  {
    var axis := if i <= RGT then l.right else l.up;
    SideDot(l, i, axis);
    DotSymmetric(l.forward, axis);
    DotSymmetric(l.right, l.up);
    Lagrange(axis, l.Side(i));
    assert axis.Dot(l.Side(i)) * axis.Dot(l.Side(i)) == 1.0;
  }

  lemma UnitHasLengthOne(isqrt: real -> real, v: Vec)
    requires IsInverseRoot(isqrt) && v.SqLength() > 0.0
    ensures Unit(isqrt, v).SqLength() == 1.0
  {
    var k := isqrt(v.SqLength());
    DotTimes(v, v, k);
    DotTimes(v.Times(k), v, k);
    assert Unit(isqrt, v).SqLength() == k * (k * v.SqLength());
  }

  lemma MinusHasLength(v: Vec)
    ensures v.Times(-1.0).SqLength() == v.SqLength()
  {
  }

  lemma PlanesAreUnit(isqrt: real -> real, l: Lens)
    requires IsInverseRoot(isqrt) && l.Valid()
    ensures UnitNormals(FrustumOf(isqrt, l))
  {
    forall i | 0 <= i < 6 && IsTested(i)
      ensures Planes(isqrt, l)[i].SqLength() == 1.0
    {
      if i <= BOT {
        SideIsNotZero(l, i);
        UnitHasLengthOne(isqrt, l.Side(i));
      }
      MinusHasLength(l.right);
      MinusHasLength(l.up);
    }
  }

  /** The near and the far plane face along the view, one back and one ahead. */
  lemma PlanesFace(isqrt: real -> real, l: Lens, depth: real, x: real, y: real)
    requires l.Orthonormal()
    ensures var f, d := FrustumOf(isqrt, l), l.At(depth, x, y).Minus(l.pos);
            d.Dot(f.planes[FRN]) == -depth && d.Dot(f.planes[BCK]) == depth
  {
    DotAt(l, depth, x, y);
    DotTimes(l.At(depth, x, y).Minus(l.pos), l.forward, -1.0);
  }

  lemma SlantedIsSlope(isqrt: real -> real, l: Lens, i: nat, d: Vec)
    requires IsInverseRoot(isqrt) && l.Orthonormal() && l.projection.Perspective? && i <= BOT
    ensures d.Dot(Planes(isqrt, l)[i]) <= 0.0 <==> Slope(l, i, d.Dot(l.forward), d.Dot(l.right), d.Dot(l.up)) <= 0.0
  {
    var side := l.Side(i);
    SideIsNotZero(l, i);
    SideDot(l, i, d);
    DotTimes(d, side, isqrt(side.SqLength()));
    SignOfProduct(isqrt(side.SqLength()), d.Dot(side));
  }

  lemma StraightIsSlope(isqrt: real -> real, l: Lens, i: nat, d: Vec)
    requires i < 6 && IsTested(i) && (l.projection.Orthographic? || i == BCK)
    ensures d.Dot(Planes(isqrt, l)[i]) == Slope(l, i, d.Dot(l.forward), d.Dot(l.right), d.Dot(l.up))
  {
    DotTimes(d, l.right, -1.0);
    DotTimes(d, l.up, -1.0);
  }

  /** A tested plane has a point at this depth and place behind it just when the slope is within the offset. */
  lemma BehindIsSlope(isqrt: real -> real, l: Lens, i: nat, depth: real, x: real, y: real)
    requires IsInverseRoot(isqrt) && l.Valid() && i < 6 && IsTested(i)
    ensures FrustumOf(isqrt, l).Behind(i, l.pos, l.At(depth, x, y)) <==> Slope(l, i, depth, x, y) <= FrustumOf(isqrt, l).Offset(i)
  {
    var d := l.At(depth, x, y).Minus(l.pos);
    DotAt(l, depth, x, y);
    if l.projection.Perspective? && i <= BOT {
      SlantedIsSlope(isqrt, l, i, d);
    } else {
      StraightIsSlope(isqrt, l, i, d);
    }
  }

  lemma SignOfProduct(k: real, s: real)
    requires k > 0.0
    ensures k * s <= 0.0 <==> s <= 0.0
  {
    assert s > 0.0 ==> k * s > 0.0;
    assert s <= 0.0 ==> k * (-s) >= 0.0;
  }

  // ---------------------------------------------------------------- the frustum as a body

  /** Between the near and the far plane, and within the lens: the height grows with the depth by the tangent of half
      the angle, and the width is the height times the aspect ratio. */
  predicate InVolume(l: Lens, depth: real, x: real, y: real) {
    var h := if l.projection.Perspective? then l.tanHalfFov * depth else l.yScale;
    var w := if l.projection.Perspective? then l.aspectRatio * h else l.xScale;
    l.zNear <= depth <= l.zFar && -w <= x <= w && -h <= y <= h
  }

  lemma VolumeBySize(l: Lens, depth: real, x: real, y: real)
    ensures InVolume(l, depth, x, y) <==>
      l.zNear <= depth <= l.zFar && -l.XSize(depth) <= x <= l.XSize(depth) && -l.YSize(depth) <= y <= l.YSize(depth)
  {
    assert depth * (l.tanHalfFov * l.aspectRatio) == l.aspectRatio * (l.tanHalfFov * depth);
  }

  function Signed(positive: bool, size: real): real {
    if positive then size else -size
  }

  /** All eight corners are there. */
  lemma VertAt(l: Lens, isFar: bool, isRight: bool, isTop: bool) returns (k: nat)
    ensures k < 8
    ensures var depth := if isFar then l.zFar else l.zNear;
      Verts(l)[k] == l.At(depth, Signed(isRight, l.XSize(depth)), Signed(isTop, l.YSize(depth)))
  {
    k := (if isFar then 4 else 0) + (if isTop then (if isRight then 1 else 0) else if isRight then 2 else 3);
  }

  lemma BlendSame(p: real, s: real, t: real)
    requires s + t == 1.0
    ensures Blend(p, p, s, t) == p
  {
    Distribute(s, t, p);
  }

  function On(p: real, f: real, r: real, u: real, d: real, x: real, y: real): real {
    p + f * d + r * x + u * y
  }

  lemma OnBlend(p: real, f: real, r: real, u: real, d: real, x: real, y: real, d': real, x': real, y': real, s: real, t: real)
    requires s + t == 1.0
    ensures Blend(On(p, f, r, u, d, x, y), On(p, f, r, u, d', x', y'), s, t)
         == On(p, f, r, u, Blend(d, d', s, t), Blend(x, x', s, t), Blend(y, y', s, t))
  {
    BlendSame(p, s, t);
    BlendStep(f, d, d', s, t, p, p);
    BlendStep(r, x, x', s, t, f * d + p, f * d' + p);
    BlendStep(u, y, y', s, t, r * x + (f * d + p), r * x' + (f * d' + p));
  }

  lemma AtIsOn(l: Lens, d: real, x: real, y: real)
    ensures l.At(d, x, y) == Vec(On(l.pos.x, l.forward.x, l.right.x, l.up.x, d, x, y),
                                 On(l.pos.y, l.forward.y, l.right.y, l.up.y, d, x, y),
                                 On(l.pos.z, l.forward.z, l.right.z, l.up.z, d, x, y))
  {
  }

  lemma AtBlend(l: Lens, d: real, x: real, y: real, d': real, x': real, y': real, s: real, t: real)
    requires s + t == 1.0
    ensures BlendVec(l.At(d, x, y), l.At(d', x', y'), s, t)
         == l.At(Blend(d, d', s, t), Blend(x, x', s, t), Blend(y, y', s, t))
  {
    AtIsOn(l, d, x, y);
    AtIsOn(l, d', x', y');
    AtIsOn(l, Blend(d, d', s, t), Blend(x, x', s, t), Blend(y, y', s, t));
    OnBlend(l.pos.x, l.forward.x, l.right.x, l.up.x, d, x, y, d', x', y', s, t);
    OnBlend(l.pos.y, l.forward.y, l.right.y, l.up.y, d, x, y, d', x', y', s, t);
    OnBlend(l.pos.z, l.forward.z, l.right.z, l.up.z, d, x, y, d', x', y', s, t);
  }

  lemma RatioWithin(t: real, w: real, x: real)
    requires w > 0.0 && t * w == x && 0.0 <= x <= w
    ensures 0.0 <= t <= 1.0
  {
    if t < 0.0 {
      ProductGrows(w, t, 0.0);
    } else if t > 1.0 {
      ProductGrows(w, 1.0, t);
    }
  }

  lemma BlendFrom(lo: real, w: real, s: real, t: real)
    requires s == 1.0 - t
    ensures Blend(lo, lo + w, s, t) == lo + t * w
  {
    Distribute(s, t, lo);
    Distribute(lo, w, t);
  }

  lemma Parted(lo: real, hi: real, v: real) returns (s: real, t: real)
    requires lo <= v <= hi
    ensures s >= 0.0 && t >= 0.0 && s + t == 1.0 && v == Blend(lo, hi, s, t)
  {
    if lo == hi {
      s, t := 1.0, 0.0;
    } else {
      t := (v - lo) / (hi - lo);
      s := 1.0 - t;
      RatioWithin(t, hi - lo, v - lo);
      BlendFrom(lo, hi - lo, s, t);
    }
  }

  lemma SizeBlend(l: Lens, d: real, d': real, s: real, t: real)
    requires s + t == 1.0
    ensures l.XSize(Blend(d, d', s, t)) == Blend(l.XSize(d), l.XSize(d'), s, t)
    ensures l.YSize(Blend(d, d', s, t)) == Blend(l.YSize(d), l.YSize(d'), s, t)
  {
    BlendSame(l.xScale, s, t);
    BlendSame(l.yScale, s, t);
    BlendStep(l.TanHalfHFov(), d, d', s, t, 0.0, 0.0);
    BlendStep(l.tanHalfFov, d, d', s, t, 0.0, 0.0);
    assert Blend(0.0, 0.0, s, t) == 0.0;
  }

  lemma SignedBlend(positive: bool, a: real, b: real, s: real, t: real)
    ensures Blend(Signed(positive, a), Signed(positive, b), s, t) == Signed(positive, Blend(a, b, s, t))
  {
  }

  lemma CornerAtDepth(l: Lens, depth: real, isRight: bool, isTop: bool)
    requires l.zNear <= depth <= l.zFar
    ensures InHull(l.At(depth, Signed(isRight, l.XSize(depth)), Signed(isTop, l.YSize(depth))), Verts(l))
  {
    var n, f := l.zNear, l.zFar;
    var s, t := Parted(n, f, depth);
    var k := VertAt(l, false, isRight, isTop);
    var k' := VertAt(l, true, isRight, isTop);
    PointInHull(Verts(l), k);
    PointInHull(Verts(l), k');
    HullIsConvex(Verts(l)[k], Verts(l)[k'], s, t, Verts(l));
    AtBlend(l, n, Signed(isRight, l.XSize(n)), Signed(isTop, l.YSize(n)), f, Signed(isRight, l.XSize(f)), Signed(isTop, l.YSize(f)), s, t);
    SizeBlend(l, n, f, s, t);
    SignedBlend(isRight, l.XSize(n), l.XSize(f), s, t);
    SignedBlend(isTop, l.YSize(n), l.YSize(f), s, t);
  }

  lemma RimAtDepth(l: Lens, depth: real, x: real, isTop: bool)
    requires l.zNear <= depth <= l.zFar && -l.XSize(depth) <= x <= l.XSize(depth)
    ensures InHull(l.At(depth, x, Signed(isTop, l.YSize(depth))), Verts(l))
  {
    var w, y := l.XSize(depth), Signed(isTop, l.YSize(depth));
    var s, t := Parted(-w, w, x);
    CornerAtDepth(l, depth, false, isTop);
    CornerAtDepth(l, depth, true, isTop);
    HullIsConvex(l.At(depth, -w, y), l.At(depth, w, y), s, t, Verts(l));
    AtBlend(l, depth, -w, y, depth, w, y, s, t);
    BlendSame(depth, s, t);
    BlendSame(y, s, t);
  }

  lemma VolumeInHull(l: Lens, depth: real, x: real, y: real)
    requires InVolume(l, depth, x, y)
    ensures InHull(l.At(depth, x, y), Verts(l))
  {
    VolumeBySize(l, depth, x, y);
    var h := l.YSize(depth);
    var s, t := Parted(-h, h, y);
    RimAtDepth(l, depth, x, false);
    RimAtDepth(l, depth, x, true);
    HullIsConvex(l.At(depth, x, -h), l.At(depth, x, h), s, t, Verts(l));
    AtBlend(l, depth, x, -h, depth, x, h, s, t);
    BlendSame(depth, s, t);
    BlendSame(x, s, t);
  }

  /** A linear form of depth and place. */
  function Form(a: real, b: real, c: real, depth: real, x: real, y: real): real {
    a * depth + b * x + c * y
  }

  predicate CornerWithin(l: Lens, a: real, b: real, c: real, hi: real, isFar: bool, isRight: bool, isTop: bool) {
    var d := if isFar then l.zFar else l.zNear;
    Form(a, b, c, d, Signed(isRight, l.XSize(d)), Signed(isTop, l.YSize(d))) <= hi
  }

  ghost predicate CornersWithin(l: Lens, a: real, b: real, c: real, hi: real) {
    forall isFar, isRight, isTop :: CornerWithin(l, a, b, c, hi, isFar, isRight, isTop)
  }

  lemma VertSigns(l: Lens, k: nat) returns (isFar: bool, isRight: bool, isTop: bool)
    requires k < 8
    ensures isFar == (k >= 4) && isRight == (k in {1, 2, 5, 6}) && isTop == (k in {0, 1, 4, 5})
    ensures var depth := if isFar then l.zFar else l.zNear;
      Verts(l)[k] == l.At(depth, Signed(isRight, l.XSize(depth)), Signed(isTop, l.YSize(depth)))
  {
    isFar, isRight, isTop := k >= 4, k in {1, 2, 5, 6}, k in {0, 1, 4, 5};
  }

  /** A linear form of depth and place that no corner exceeds is exceeded nowhere in the hull. */
  lemma FormInHull(l: Lens, a: real, b: real, c: real, hi: real, depth: real, x: real, y: real)
    requires l.Orthonormal() && InHull(l.At(depth, x, y), Verts(l))
    requires CornersWithin(l, a, b, c, hi)
    ensures Form(a, b, c, depth, x, y) <= hi
  {
    var axis := l.forward.Times(a).Plus(l.right.Times(b)).Plus(l.up.Times(c));
    FormIsDot(l, a, b, c, depth, x, y);
    var k, k' := HullReaches(axis, Verts(l), l.At(depth, x, y));
    var isFar, isRight, isTop := VertSigns(l, k');
    var d := if isFar then l.zFar else l.zNear;
    assert CornerWithin(l, a, b, c, hi, isFar, isRight, isTop);
    FormIsDot(l, a, b, c, d, Signed(isRight, l.XSize(d)), Signed(isTop, l.YSize(d)));
  }

  lemma FormIsDot(l: Lens, a: real, b: real, c: real, depth: real, x: real, y: real)
    requires l.Orthonormal()
    ensures var axis := l.forward.Times(a).Plus(l.right.Times(b)).Plus(l.up.Times(c));
            axis.Dot(l.At(depth, x, y)) - axis.Dot(l.pos) == Form(a, b, c, depth, x, y)
  {
    var d := l.At(depth, x, y).Minus(l.pos);
    var axis := l.forward.Times(a).Plus(l.right.Times(b)).Plus(l.up.Times(c));
    DotAt(l, depth, x, y);
    DotFrame(d, l.forward, l.right, l.up, a, b, c, axis);
    DotSymmetric(d, l.forward);
    DotSymmetric(d, l.right);
    DotSymmetric(d, l.up);
    DotMinus(axis, l.At(depth, x, y), l.pos);
  }

  /** The sizes of a lens are nonnegative where it sees anything, and grow with the depth or stay. */
  lemma SizesNonnegative(l: Lens, depth: real)
    requires l.IsOpen() && l.zNear <= depth
    ensures l.XSize(depth) >= 0.0 && l.YSize(depth) >= 0.0
  {
    if l.projection.Perspective? {
      ProductGrows(l.tanHalfFov, 0.0, l.aspectRatio);
      ProductGrows(depth, 0.0, l.tanHalfFov);
      ProductGrows(depth, 0.0, l.TanHalfHFov());
    }
  }

  lemma HullInDepth(l: Lens, depth: real, x: real, y: real)
    requires l.Valid() && InHull(l.At(depth, x, y), Verts(l))
    ensures l.zNear <= depth <= l.zFar
  {
    assert CornersWithin(l, 1.0, 0.0, 0.0, l.zFar);
    FormInHull(l, 1.0, 0.0, 0.0, l.zFar, depth, x, y);
    assert CornersWithin(l, -1.0, 0.0, 0.0, -l.zNear);
    FormInHull(l, -1.0, 0.0, 0.0, -l.zNear, depth, x, y);
  }

  /** How fast the size grows with the depth, and what it is at depth 0. */
  function XGrowth(l: Lens): real {
    if l.projection.Perspective? then l.TanHalfHFov() else 0.0
  }

  function YGrowth(l: Lens): real {
    if l.projection.Perspective? then l.tanHalfFov else 0.0
  }

  function XBase(l: Lens): real {
    if l.projection.Perspective? then 0.0 else l.xScale
  }

  function YBase(l: Lens): real {
    if l.projection.Perspective? then 0.0 else l.yScale
  }

  lemma SizeIsForm(l: Lens, right: bool, depth: real, x: real, y: real)
    ensures Form(-XGrowth(l), Signed(right, 1.0), 0.0, depth, x, y) == Signed(right, x) - (l.XSize(depth) - XBase(l))
    ensures Form(-YGrowth(l), 0.0, Signed(right, 1.0), depth, x, y) == Signed(right, y) - (l.YSize(depth) - YBase(l))
  {
  }

  lemma CornerWithinSide(l: Lens, right: bool, isFar: bool, isRight: bool, isTop: bool)
    requires l.Valid()
    ensures CornerWithin(l, -XGrowth(l), Signed(right, 1.0), 0.0, XBase(l), isFar, isRight, isTop)
    ensures CornerWithin(l, -YGrowth(l), 0.0, Signed(right, 1.0), YBase(l), isFar, isRight, isTop)
  {
    var d := if isFar then l.zFar else l.zNear;
    SizesNonnegative(l, d);
    SizeIsForm(l, right, d, Signed(isRight, l.XSize(d)), Signed(isTop, l.YSize(d)));
  }

  lemma HullInSide(l: Lens, right: bool, depth: real, x: real, y: real)
    requires l.Valid() && InHull(l.At(depth, x, y), Verts(l))
    ensures Signed(right, x) <= l.XSize(depth) && Signed(right, y) <= l.YSize(depth)
  {
    var a, b, sign := -XGrowth(l), -YGrowth(l), Signed(right, 1.0);
    forall isFar, isRight, isTop
      ensures CornerWithin(l, a, sign, 0.0, XBase(l), isFar, isRight, isTop)
    {
      CornerWithinSide(l, right, isFar, isRight, isTop);
    }
    forall isFar, isRight, isTop
      ensures CornerWithin(l, b, 0.0, sign, YBase(l), isFar, isRight, isTop)
    {
      CornerWithinSide(l, right, isFar, isRight, isTop);
    }
    FormInHull(l, a, sign, 0.0, XBase(l), depth, x, y);
    FormInHull(l, b, 0.0, sign, YBase(l), depth, x, y);
    SizeIsForm(l, right, depth, x, y);
  }

  /** The hull of the corners is exactly what the lens sees between its planes. */
  lemma HullIsVolume(l: Lens, depth: real, x: real, y: real)
    requires l.Valid()
    ensures InHull(l.At(depth, x, y), Verts(l)) <==> InVolume(l, depth, x, y)
  {
    VolumeBySize(l, depth, x, y);
    if InVolume(l, depth, x, y) {
      VolumeInHull(l, depth, x, y);
    }
    if InHull(l.At(depth, x, y), Verts(l)) {
      HullInDepth(l, depth, x, y);
      HullInSide(l, true, depth, x, y);
      HullInSide(l, false, depth, x, y);
    }
  }

  // ---------------------------------------------------------------- the edges

  predicate Parallel(u: Vec, v: Vec) {
    u.Cross(v) == ZERO
  }

  /** The twelve edges of the body: pairs of corners that differ in one of three ways. */
  predicate IsAcross(a: nat, b: nat) {
    (a, b) in {(0, 1), (3, 2), (4, 5), (7, 6)}
  }

  predicate IsUpward(a: nat, b: nat) {
    (a, b) in {(3, 0), (2, 1), (7, 4), (6, 5)}
  }

  predicate IsInDepth(a: nat, b: nat) {
    (a, b) in {(0, 4), (1, 5), (2, 6), (3, 7)}
  }

  lemma ParallelAlong(v: Vec, a: real, b: real)
    ensures Parallel(v.Times(a), v.Times(b))
  {
    SwapFactors(v.y, v.z, a, b);
    SwapFactors(v.z, v.x, a, b);
    SwapFactors(v.x, v.y, a, b);
  }

  lemma SwapFactors(p: real, q: real, a: real, b: real)
    ensures (p * a) * (q * b) == (q * a) * (p * b)
  {
    assert (p * a) * (q * b) == (p * q) * (a * b);
    assert (q * a) * (p * b) == (p * q) * (a * b);
  }

  lemma TimesTwice(v: Vec, a: real, k: real)
    ensures v.Times(a).Times(k) == v.Times(a * k)
  {
    assert v.x * a * k == v.x * (a * k);
    assert v.y * a * k == v.y * (a * k);
    assert v.z * a * k == v.z * (a * k);
  }

  lemma UnitParallel(isqrt: real -> real, v: Vec, a: real, b: real)
    ensures Parallel(v.Times(a), Unit(isqrt, v.Times(b)))
  {
    var k := isqrt(v.Times(b).SqLength());
    TimesTwice(v, b, k);
    ParallelAlong(v, a, b * k);
  }

  lemma StepBack(p: Vec, v: Vec, x: real)
    ensures p.Plus(v.Times(x)).Minus(p.Plus(v.Times(-x))) == v.Times(2.0 * x)
  {
    assert v.x * x - v.x * (-x) == v.x * (2.0 * x);
    assert v.y * x - v.y * (-x) == v.y * (2.0 * x);
    assert v.z * x - v.z * (-x) == v.z * (2.0 * x);
  }

  lemma PlusSwap(p: Vec, u: Vec, v: Vec)
    ensures p.Plus(u).Plus(v) == p.Plus(v).Plus(u)
  {
  }

  lemma StepAcross(l: Lens, depth: real, x: real, y: real)
    ensures l.At(depth, x, y).Minus(l.At(depth, -x, y)) == l.right.Times(2.0 * x)
    ensures l.At(depth, x, y).Minus(l.At(depth, x, -y)) == l.up.Times(2.0 * y)
  {
    var p := l.pos.Plus(l.forward.Times(depth));
    StepBack(p.Plus(l.up.Times(y)), l.right, x);
    PlusSwap(p, l.right.Times(x), l.up.Times(y));
    PlusSwap(p, l.right.Times(-x), l.up.Times(y));
    StepBack(p.Plus(l.right.Times(x)), l.up, y);
  }

  lemma AcrossStep(l: Lens, a: nat, b: nat) returns (x: real)
    requires IsAcross(a, b)
    ensures Verts(l)[b].Minus(Verts(l)[a]) == l.right.Times(x)
  {
    var isFar, isRight, isTop := VertSigns(l, a);
    isFar, isRight, isTop := VertSigns(l, b);
    var depth := if isFar then l.zFar else l.zNear;
    x := 2.0 * l.XSize(depth);
    StepAcross(l, depth, l.XSize(depth), Signed(isTop, l.YSize(depth)));
  }

  lemma UpwardStep(l: Lens, a: nat, b: nat) returns (y: real)
    requires IsUpward(a, b)
    ensures Verts(l)[b].Minus(Verts(l)[a]) == l.up.Times(y)
  {
    var isFar, isRight, isTop := VertSigns(l, a);
    isFar, isRight, isTop := VertSigns(l, b);
    var depth := if isFar then l.zFar else l.zNear;
    y := 2.0 * l.YSize(depth);
    StepAcross(l, depth, Signed(isRight, l.XSize(depth)), l.YSize(depth));
  }

  /** All edges across are parallel to the first kept direction. */
  lemma EdgesAcross(isqrt: real -> real, l: Lens, a: nat, b: nat)
    requires IsAcross(a, b)
    ensures Parallel(Verts(l)[b].Minus(Verts(l)[a]), Edges(isqrt, Verts(l))[0])
  {
    var x := AcrossStep(l, a, b);
    var x' := AcrossStep(l, 0, 1);
    UnitParallel(isqrt, l.right, x, x');
  }

  /** All edges upward are parallel to the second. */
  lemma EdgesUpward(isqrt: real -> real, l: Lens, a: nat, b: nat)
    requires IsUpward(a, b)
    ensures Parallel(Verts(l)[b].Minus(Verts(l)[a]), Edges(isqrt, Verts(l))[1])
  {
    var y := UpwardStep(l, a, b);
    var y' := UpwardStep(l, 3, 0);
    UnitParallel(isqrt, l.up, y, y');
  }

  /** Each of the four edges from near to far is kept. */
  lemma EdgesInDepth(isqrt: real -> real, l: Lens, a: nat, b: nat)
    requires IsInDepth(a, b)
    ensures Parallel(Verts(l)[b].Minus(Verts(l)[a]), Edges(isqrt, Verts(l))[2 + a])
  {
    var step := Verts(l)[b].Minus(Verts(l)[a]);
    UnitParallel(isqrt, step, 1.0, 1.0);
    assert step.Times(1.0) == step;
  }

  lemma PositiveIfReaching(axis: Vec, v: Vec)
    requires axis.SqLength() == 1.0 && axis.Dot(v) > 0.0
    ensures v.SqLength() > 0.0
  {
    if v.SqLength() <= 0.0 {
      UnitReach(axis, v, 0.0);
    }
  }

  lemma ForwardReach(l: Lens, d: real, x: real, y: real)
    requires l.Orthonormal()
    ensures l.forward.Dot(l.At(d, x, y)) == l.forward.Dot(l.pos) + d
  {
    DotAt(l, d, x, y);
    DotMinus(l.forward, l.At(d, x, y), l.pos);
    DotSymmetric(l.forward, l.At(d, x, y).Minus(l.pos));
  }

  lemma DepthStep(l: Lens, a: nat, b: nat)
    requires l.Orthonormal() && IsInDepth(a, b)
    ensures l.forward.Dot(Verts(l)[b].Minus(Verts(l)[a])) == l.zFar - l.zNear
  {
    var isFar, isRight, isTop := VertSigns(l, a);
    ForwardReach(l, l.zNear, Signed(isRight, l.XSize(l.zNear)), Signed(isTop, l.YSize(l.zNear)));
    isFar, isRight, isTop := VertSigns(l, b);
    ForwardReach(l, l.zFar, Signed(isRight, l.XSize(l.zFar)), Signed(isTop, l.YSize(l.zFar)));
    DotMinus(l.forward, Verts(l)[b], Verts(l)[a]);
  }

  lemma UnitAlong(isqrt: real -> real, axis: Vec, v: Vec, x: real)
    requires IsInverseRoot(isqrt) && axis.SqLength() == 1.0 && x > 0.0 && v == axis.Times(2.0 * x)
    ensures Unit(isqrt, v).SqLength() == 1.0
  {
    DotTimes(axis, axis, 2.0 * x);
    PositiveIfReaching(axis, v);
    UnitHasLengthOne(isqrt, v);
  }

  lemma EdgeInDepthIsUnit(isqrt: real -> real, l: Lens, k: nat)
    requires IsInverseRoot(isqrt) && l.Orthonormal() && k < 4 && l.zNear < l.zFar
    ensures Unit(isqrt, Verts(l)[k + 4].Minus(Verts(l)[k])).SqLength() == 1.0
  {
    var step := Verts(l)[k + 4].Minus(Verts(l)[k]);
    DepthStep(l, k, k + 4);
    PositiveIfReaching(l.forward, step);
    UnitHasLengthOne(isqrt, step);
  }

  lemma EdgeAtFrontIsUnit(isqrt: real -> real, l: Lens)
    requires IsInverseRoot(isqrt) && l.Orthonormal() && l.XSize(l.zNear) > 0.0 && l.YSize(l.zNear) > 0.0
    ensures Unit(isqrt, Verts(l)[1].Minus(Verts(l)[0])).SqLength() == 1.0
    ensures Unit(isqrt, Verts(l)[0].Minus(Verts(l)[3])).SqLength() == 1.0
  {
    StepAcross(l, l.zNear, l.XSize(l.zNear), l.YSize(l.zNear));
    UnitAlong(isqrt, l.right, Verts(l)[1].Minus(Verts(l)[0]), l.XSize(l.zNear));
    StepAcross(l, l.zNear, -l.XSize(l.zNear), l.YSize(l.zNear));
    UnitAlong(isqrt, l.up, Verts(l)[0].Minus(Verts(l)[3]), l.YSize(l.zNear));
  }

  /** The kept directions have length one where the body has an extent. */
  lemma EdgesAreUnit(isqrt: real -> real, l: Lens, k: nat)
    requires IsInverseRoot(isqrt) && l.Orthonormal() && k < 6
    requires l.XSize(l.zNear) > 0.0 && l.YSize(l.zNear) > 0.0 && l.zNear < l.zFar
    ensures Edges(isqrt, Verts(l))[k].SqLength() == 1.0
  {
    if k <= 1 {
      EdgeAtFrontIsUnit(isqrt, l);
    } else {
      EdgeInDepthIsUnit(isqrt, l, k - 2);
    }
  }

  // ---------------------------------------------------------------- which cameras keep their corners

  /** Every corner of the frustum is behind every plane that the sphere test looks at. */
  ghost predicate CornersBehind(isqrt: real -> real, l: Lens) {
    var f := FrustumOf(isqrt, l);
    forall i, k :: 0 <= i < 6 && IsTested(i) && 0 <= k < 8 ==> f.Behind(i, l.pos, f.verts[k])
  }

  /** The side planes are opened at least as wide as the corners: tan(halfFov) * aspectRatio against tan(aspectRatio * halfFov). */
  predicate WideEnough(l: Lens) {
    l.projection.Perspective? ==> l.tanHalfFov * l.aspectRatio <= l.tanWide
  }

  lemma CornerSlope(l: Lens, i: nat, depth: real, x: real, y: real)
    requires l.IsOpen() && WideEnough(l) && i < 6 && IsTested(i)
    requires depth <= l.zFar && (l.projection.Perspective? ==> 0.0 < depth)
    requires (x == l.XSize(depth) || x == -l.XSize(depth)) && (y == l.YSize(depth) || y == -l.YSize(depth))
    ensures Slope(l, i, depth, x, y) <= (if i == BCK then l.zFar else if i <= RGT then l.xScale else l.yScale)
  {
    if l.projection.Perspective? {
      LensBound(l, depth);
    }
  }

  lemma LensBound(l: Lens, depth: real)
    requires l.IsOpen() && l.projection.Perspective? && WideEnough(l) && depth > 0.0
    ensures 0.0 < l.XSize(depth) <= l.tanWide * depth && 0.0 < l.YSize(depth) == l.tanHalfFov * depth
  {
    var wide := l.TanHalfHFov();
    ProductGrows(l.tanHalfFov, 0.0, l.aspectRatio);
    ProductGrows(depth, 0.0, l.tanHalfFov);
    ProductGrows(depth, 0.0, wide);
    ProductGrows(depth, wide, l.tanWide);
  }

  lemma ProductGrows(k: real, a: real, b: real)
    requires k > 0.0
    ensures a <= b ==> k * a <= k * b
    ensures a < b ==> k * a < k * b
  {
    var d := b - a;
    assert d > 0.0 ==> k * d > 0.0;
    assert k * d == k * b - k * a;
  }

  lemma CornersBehindIfWide(isqrt: real -> real, l: Lens)
    requires IsInverseRoot(isqrt) && l.Valid() && WideEnough(l)
    ensures CornersBehind(isqrt, l)
  {
    var f := FrustumOf(isqrt, l);
    forall i, k | 0 <= i < 6 && IsTested(i) && 0 <= k < 8
      ensures f.Behind(i, l.pos, f.verts[k])
    {
      var depth, x, y := CornerPlace(l, k);
      CornerSlope(l, i, depth, x, y);
      BehindIsSlope(isqrt, l, i, depth, x, y);
    }
  }

  lemma CornerPlace(l: Lens, k: nat) returns (depth: real, x: real, y: real)
    requires k < 8
    ensures Verts(l)[k] == l.At(depth, x, y) && (depth == l.zNear || depth == l.zFar)
    ensures (x == l.XSize(depth) || x == -l.XSize(depth)) && (y == l.YSize(depth) || y == -l.YSize(depth))
  {
    depth := if k < 4 then l.zNear else l.zFar;
    x := if k in {1, 2, 5, 6} then l.XSize(depth) else -l.XSize(depth);
    y := if k in {0, 1, 4, 5} then l.YSize(depth) else -l.YSize(depth);
  }

  lemma NarrowSlope(l: Lens, depth: real)
    requires !WideEnough(l) && depth > 0.0
    ensures Slope(l, RGT, depth, l.XSize(depth), l.YSize(depth)) > 0.0
  {
    ProductGrows(depth, l.tanWide, l.TanHalfHFov());
  }

  lemma CornerInFrontIfNarrow(isqrt: real -> real, l: Lens)
    requires IsInverseRoot(isqrt) && l.Valid() && !WideEnough(l)
    ensures !FrustumOf(isqrt, l).Behind(RGT, l.pos, Verts(l)[1])
  {
    NarrowSlope(l, l.zNear);
    BehindIsSlope(isqrt, l, RGT, l.zNear, l.XSize(l.zNear), l.YSize(l.zNear));
  }

  lemma CornersBehindExactly(isqrt: real -> real, l: Lens)
    requires IsInverseRoot(isqrt) && l.Valid()
    ensures CornersBehind(isqrt, l) <==> WideEnough(l)
  {
    if WideEnough(l) {
      CornersBehindIfWide(isqrt, l);
    } else {
      CornerInFrontIfNarrow(isqrt, l);
      assert IsTested(RGT);
    }
  }

  // ---------------------------------------------------------------- InView

  /** InView of a box: its bounding sphere, then the box itself. */
  ghost predicate InView(isqrt: real -> real, l: Lens, b: Box, radius: real) {
    SphereTest(FrustumOf(isqrt, l), l.pos, b.Center(), radius) && BoxTest(isqrt, FrustumOf(isqrt, l), b)
  }

  predicate IsRadius(b: Box, radius: real) {
    radius >= 0.0 && radius * radius == b.Scales().SqLength()
  }

  lemma BoxInBall(b: Box, p: Vec)
    requires b.Contains(p)
    ensures p.Minus(b.Center()).SqLength() <= b.Scales().SqLength()
  {
    var d, s := p.Minus(b.Center()), b.Scales();
    SquareWithin(d.x, s.x);
    SquareWithin(d.y, s.y);
    SquareWithin(d.z, s.z);
  }

  lemma SquareWithin(d: real, s: real)
    requires -s <= d <= s
    ensures d * d <= s * s
  {
    var a, b := s - d, s + d;
    assert a * b >= 0.0;
    assert a * b == s * s - d * d;
  }

  /** A half-space that holds the corners holds their hull. */
  lemma HullBehind(f: Frustum, i: nat, cp: Vec, p: Vec)
    requires f.Valid() && i < 6 && InHull(p, f.verts)
    requires forall k :: 0 <= k < 8 ==> f.Behind(i, cp, f.verts[k])
    ensures f.Behind(i, cp, p)
  {
    var n := f.planes[i];
    var k, k' := HullReaches(n, f.verts, p);
    DotAgainst(n, p, cp);
    DotAgainst(n, f.verts[k'], cp);
    assert f.Behind(i, cp, f.verts[k']);
  }

  lemma DotAgainst(n: Vec, p: Vec, cp: Vec)
    ensures p.Minus(cp).Dot(n) == n.Dot(p) - n.Dot(cp)
  {
  }

  /** With the corners behind the planes, a box with a point in view is never culled. */
  lemma InViewSound(isqrt: real -> real, l: Lens, b: Box, radius: real, p: Vec)
    requires IsInverseRoot(isqrt) && l.Valid() && CornersBehind(isqrt, l)
    requires InHull(p, Verts(l)) && b.Contains(p) && IsRadius(b, radius)
    ensures InView(isqrt, l, b, radius)
  {
    var f := FrustumOf(isqrt, l);
    BoxCullingSound(isqrt, f, b, p);
    PlanesAreUnit(isqrt, l);
    BoxInBall(b, p);
    forall i | 0 <= i < 6 && IsTested(i)
      ensures b.Center().Minus(l.pos).Dot(f.planes[i]) <= f.Offset(i) + radius
    {
      HullBehind(f, i, l.pos, p);
      ReachInBall(f.planes[i], l.pos, b.Center(), radius, p);
    }
  }

  /** A box is out of view exactly when a tested plane has its whole ball in front, or one of the tried directions
      has the box itself strictly apart from the hull. */
  lemma InViewCulledExactly(isqrt: real -> real, l: Lens, b: Box, radius: real)
    requires IsInverseRoot(isqrt) && l.Valid() && b.Contains(b.mins) && radius >= 0.0
    ensures var f := FrustumOf(isqrt, l);
      !InView(isqrt, l, b, radius) <==>
        || (exists i :: i in {LFT, RGT, TOP, BOT, BCK} && BallInFront(f, i, l.pos, b.Center(), radius))
        || BodiesApart(Vec(1.0, 0.0, 0.0), f, b) || BodiesApart(Vec(0.0, 1.0, 0.0), f, b) || BodiesApart(Vec(0.0, 0.0, 1.0), f, b)
        || (exists i :: 0 <= i < 6 && BodiesApart(f.planes[i], f, b))
        || exists i, j :: 0 <= i < 3 && 0 <= j < 6 && BodiesApart(CoordinateCross(i, f.edges[j]), f, b)
  {
    var f := FrustumOf(isqrt, l);
    PlanesAreUnit(isqrt, l);
    SphereCulledExactly(f, l.pos, b.Center(), radius);
    BoxCulledByAxes(isqrt, f, b);
  }

  /** A box that is a single point in front of a tested plane is culled. */
  lemma PointBoxCulled(isqrt: real -> real, l: Lens, i: nat, v: Vec)
    requires i < 6 && IsTested(i) && !FrustumOf(isqrt, l).Behind(i, l.pos, v)
    ensures var b := Box(v, v); b.Contains(v) && IsRadius(b, 0.0) && !InView(isqrt, l, b, 0.0)
  {
    assert Box(v, v).Center() == v;
    assert Box(v, v).Scales() == ZERO;
  }

  ghost predicate NeverCullsVisible(isqrt: real -> real, l: Lens) {
    forall b: Box, radius: real, p :: InHull(p, Verts(l)) && b.Contains(p) && IsRadius(b, radius) ==> InView(isqrt, l, b, radius)
  }

  /**
   A camera shows every box with a point in its frustum exactly when it is orthographic or its side planes
   are wide enough; else the box that is just the near top right corner is culled.
   */
  lemma NeverCullsExactly(isqrt: real -> real, l: Lens)
    requires IsInverseRoot(isqrt) && l.Valid()
    ensures NeverCullsVisible(isqrt, l) <==> WideEnough(l)
  {
    CornersBehindExactly(isqrt, l);
    if WideEnough(l) {
      forall b: Box, radius: real, p | InHull(p, Verts(l)) && b.Contains(p) && IsRadius(b, radius)
        ensures InView(isqrt, l, b, radius)
      {
        InViewSound(isqrt, l, b, radius, p);
      }
    } else {
      CornerInFrontIfNarrow(isqrt, l);
      PointInHull(Verts(l), 1);
      PointBoxCulled(isqrt, l, RGT, Verts(l)[1]);
    }
  }
}
