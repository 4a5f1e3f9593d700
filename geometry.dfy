/** Vectors, transforms and axis-aligned boxes as the editor uses them.
    Coordinates are exact reals standing for the source's 32-bit floats. */
module Geometry {

  datatype Option<+T> = None | Some(value: T)

  /** A libGDX Vector3. */
  datatype Vec3 = Vec3(x: real, y: real, z: real)

  const Zero := Vec3(0.0, 0.0, 0.0)
  const One := Vec3(1.0, 1.0, 1.0)

  function Add(a: Vec3, b: Vec3): Vec3 { Vec3(a.x + b.x, a.y + b.y, a.z + b.z) }

  function Sub(a: Vec3, b: Vec3): Vec3 { Vec3(a.x - b.x, a.y - b.y, a.z - b.z) }

  function Scale(a: Vec3, k: real): Vec3 { Vec3(a.x * k, a.y * k, a.z * k) }

  /** Componentwise product (a diagonal matrix applied to a vector). */
  function Mul(a: Vec3, b: Vec3): Vec3 { Vec3(a.x * b.x, a.y * b.y, a.z * b.z) }

  /** Vector3.crs */
  function Cross(a: Vec3, b: Vec3): Vec3 {
    Vec3(a.y * b.z - a.z * b.y, a.z * b.x - a.x * b.z, a.x * b.y - a.y * b.x)
  }

  /** Vector3.dot */
  function Dot(a: Vec3, b: Vec3): real { a.x * b.x + a.y * b.y + a.z * b.z }

  /** Vector3.dst2: squared distance. */
  function Dst2(a: Vec3, b: Vec3): real {
    (a.x - b.x) * (a.x - b.x) + (a.y - b.y) * (a.y - b.y) + (a.z - b.z) * (a.z - b.z)
  }

  /** Component `axis` (0 = x, 1 = y, 2 = z). */
  function Coord(v: Vec3, axis: nat): real
    requires axis < 3
  {
    if axis == 0 then v.x else if axis == 1 then v.y else v.z
  }

  /** The vector with `k` on `axis` and 0 on the other two. */
  function AxisVector(axis: nat, k: real): (r: Vec3)
    requires axis < 3
    ensures forall j | 0 <= j < 3 :: Coord(r, j) == if j == axis then k else 0.0
  {
    if axis == 0 then Vec3(k, 0.0, 0.0) else if axis == 1 then Vec3(0.0, k, 0.0) else Vec3(0.0, 0.0, k)
  }

  function Abs(r: real): real { if r < 0.0 then -r else r }

  function MaxR(a: real, b: real): real { if a < b then b else a }

  function MinR(a: real, b: real): real { if a < b then a else b }

  /** kotlin.math.sign, already converted with toInt(). */
  function Sign(r: real): int { if r > 0.0 then 1 else if r < 0.0 then -1 else 0 }

  /** kotlin.math.floor */
  function Floor(r: real): int { r.Floor }

  /** Float.toInt(): rounds toward zero. */
  function Trunc(r: real): (n: int)
    ensures 0.0 <= r ==> n as real <= r < n as real + 1.0
    ensures r < 0.0 ==> n as real - 1.0 < r <= n as real
  {
    if r >= 0.0 then r.Floor else -((-r).Floor)
  }

  /** Truncates every component toward zero: p.set(p.x.toInt().toFloat(), ...). */
  function TruncVec(p: Vec3): Vec3 {
    Vec3(Trunc(p.x) as real, Trunc(p.y) as real, Trunc(p.z) as real)
  }

  /** A model-instance transform without rotation: world = translation + scale * local.
      Every transform the editor builds has this shape (identity, setTranslation, scl). */
  datatype Transform = Transform(translation: Vec3, scale: Vec3)

  /** transform.idt().setTranslation(p) */
  function Translation(p: Vec3): Transform { Transform(p, One) }

  predicate TranslationOnly(t: Transform) { t.scale == One }

  /** Vector3.mul(transform) / prj(transform) for a point. */
  function ToWorld(t: Transform, v: Vec3): Vec3 { Add(t.translation, Mul(t.scale, v)) }

  /** Matrix4.inv() succeeds exactly when no scale factor is zero. */
  predicate Invertible(t: Transform) { t.scale.x != 0.0 && t.scale.y != 0.0 && t.scale.z != 0.0 }

  /** A world direction mapped into local space: the inverse of the transform with its
      translation zeroed, applied with prj. */
  function LocalDirection(t: Transform, d: Vec3): (r: Vec3)
    requires Invertible(t)
    ensures Mul(t.scale, r) == d
    ensures TranslationOnly(t) ==> r == d
  {
    Vec3(d.x / t.scale.x, d.y / t.scale.y, d.z / t.scale.z)
  }

  /** A libGDX BoundingBox. */
  datatype Box = Box(min: Vec3, max: Vec3)

  /** BoundingBox.getCenter */
  function Center(b: Box): Vec3 { Scale(Add(b.min, b.max), 0.5) }

  predicate Contains(b: Box, p: Vec3) {
    b.min.x <= p.x <= b.max.x && b.min.y <= p.y <= b.max.y && b.min.z <= p.z <= b.max.z
  }

  /** A box grown from the first point by each later one in turn (the min and max of
      every coordinate so far); it holds every point of a non-empty list. */
  function BoxOf(ps: seq<Vec3>): (b: Box)
    requires |ps| > 0
    ensures forall i | 0 <= i < |ps| :: Contains(b, ps[i])
    decreases |ps|
  {
    if |ps| == 1 then Box(ps[0], ps[0])
    else
      var b := BoxOf(ps[..|ps| - 1]);
      var p := ps[|ps| - 1];
      Box(Vec3(MinR(b.min.x, p.x), MinR(b.min.y, p.y), MinR(b.min.z, p.z)),
          Vec3(MaxR(b.max.x, p.x), MaxR(b.max.y, p.y), MaxR(b.max.z, p.z)))
  }

  /** BoundingBox.mul(transform): the box around the transformed corners. */
  function WorldBox(t: Transform, b: Box): Box {
    var lo := ToWorld(t, b.min);
    var hi := ToWorld(t, b.max);
    Box(Vec3(MinR(lo.x, hi.x), MinR(lo.y, hi.y), MinR(lo.z, hi.z)),
        Vec3(MaxR(lo.x, hi.x), MaxR(lo.y, hi.y), MaxR(lo.z, hi.z)))
  }

  /** Transforming a box keeps every transformed point of it inside. */
  lemma WorldBoxContains(t: Transform, b: Box, p: Vec3)
    requires Contains(b, p)
    ensures Contains(WorldBox(t, b), ToWorld(t, p))
  {
    var w, q := WorldBox(t, b), ToWorld(t, p);
    ScaledBetween(t.translation.x, t.scale.x, b.min.x, p.x, b.max.x, w.min.x, q.x, w.max.x);
    ScaledBetween(t.translation.y, t.scale.y, b.min.y, p.y, b.max.y, w.min.y, q.y, w.max.y);
    ScaledBetween(t.translation.z, t.scale.z, b.min.z, p.z, b.max.z, w.min.z, q.z, w.max.z);
  }

  /** An affine map u + s * x keeps a value between the images of the interval's ends. */
  lemma ScaledBetween(u: real, s: real, lo: real, v: real, hi: real, min: real, image: real, max: real)
    requires lo <= v <= hi
    requires min == MinR(u + s * lo, u + s * hi) && max == MaxR(u + s * lo, u + s * hi)
    requires image == u + s * v
    ensures min <= image <= max
  {
    ProductSign(s, v - lo);
    ProductSign(s, hi - v);
    assert s * (v - lo) == s * v - s * lo;
    assert s * (hi - v) == s * hi - s * v;
  }

  lemma ProductSign(s: real, d: real)
    requires d >= 0.0
    ensures s >= 0.0 ==> s * d >= 0.0
    ensures s < 0.0 ==> s * d <= 0.0
  {
  }
}
