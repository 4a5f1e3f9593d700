/** The creation mode of the editor (sr/handlers/DrawingHandler): a press picks the cell
    next to the nearest block face under the cursor, or the ground cell under it, and
    starts a new unit cube there; dragging resizes its footprint on the x-z grid from
    that anchor; releasing commits it to the block list. */
module Drawing {
  import opened Geometry
  import opened Selection
  import opened Scene
  import opened MeshUtils
  import opened Picking

  // ---------------------------------------------------------------- axisClamp

  /** axisClamp: the axis vector signed like the dominant component of n. x wins only
      when strictly largest, then y when larger than z, otherwise z. */
  function AxisClamp(n: Vec3): (r: Vec3)
    ensures Abs(r.x) + Abs(r.y) + Abs(r.z) == (if n == Zero then 0.0 else 1.0)
  {
    if Abs(n.x) > Abs(n.y) && Abs(n.x) > Abs(n.z) then Vec3(Sign(n.x) as real, 0.0, 0.0)
    else if Abs(n.y) > Abs(n.z) then Vec3(0.0, Sign(n.y) as real, 0.0)
    else Vec3(0.0, 0.0, Sign(n.z) as real)
  }

  /** Component k has the largest magnitude, and every later component a strictly
      smaller one: k is the last of the largest components. */
  ghost predicate LastDominant(n: Vec3, k: nat)
    requires k < 3
  {
    && (forall j | 0 <= j < 3 :: Abs(Coord(n, j)) <= Abs(Coord(n, k)))
    && (forall j | k < j < 3 :: Abs(Coord(n, j)) < Abs(Coord(n, k)))
  }

  /** axisClamp keeps only the last of the largest components, and only its sign. */
  lemma AxisClampDominant(n: Vec3)
    ensures exists k | 0 <= k < 3 :: LastDominant(n, k) && AxisClamp(n) == AxisVector(k, Sign(Coord(n, k)) as real)
  {
    if Abs(n.x) > Abs(n.y) && Abs(n.x) > Abs(n.z) {
      assert LastDominant(n, 0) && AxisClamp(n) == AxisVector(0, Sign(Coord(n, 0)) as real);
    } else if Abs(n.y) > Abs(n.z) {
      assert LastDominant(n, 1) && AxisClamp(n) == AxisVector(1, Sign(Coord(n, 1)) as real);
    } else {
      assert LastDominant(n, 2) && AxisClamp(n) == AxisVector(2, Sign(Coord(n, 2)) as real);
    }
  }

  /** The last of the largest components is unique. */
  lemma LastDominantUnique(n: Vec3, k1: nat, k2: nat)
    requires k1 < 3 && k2 < 3 && LastDominant(n, k1) && LastDominant(n, k2)
    ensures k1 == k2
  {
    var a1, a2 := Abs(Coord(n, k1)), Abs(Coord(n, k2));
    assert a1 <= a2 && a2 <= a1;
  }

  /** Scaling by a positive factor changes neither magnitudes' order nor signs, so
      axisClamp ignores the nor() the source applies first. */
  lemma AxisClampScale(n: Vec3, s: real)
    requires s > 0.0
    ensures AxisClamp(Scale(n, s)) == AxisClamp(n)
  {
    ShapeScale(n, s);
    AxisClampSameShape(n, Scale(n, s));
  }

  /** What axisClamp looks at: the order of the magnitudes and the signs. */
  datatype Shape = Shape(xy: bool, xz: bool, yz: bool, sx: int, sy: int, sz: int)

  function ShapeOf(n: Vec3): Shape {
    Shape(Abs(n.x) > Abs(n.y), Abs(n.x) > Abs(n.z), Abs(n.y) > Abs(n.z), Sign(n.x), Sign(n.y), Sign(n.z))
  }

  lemma ShapeScale(n: Vec3, s: real)
    requires s > 0.0
    ensures ShapeOf(Scale(n, s)) == ShapeOf(n)
  {
    var m := Scale(n, s);
    AbsOrderScale(n.x, n.y, s, m.x, m.y);
    AbsOrderScale(n.x, n.z, s, m.x, m.z);
    AbsOrderScale(n.y, n.z, s, m.y, m.z);
  }

  lemma AxisClampSameShape(n: Vec3, m: Vec3)
    requires ShapeOf(m) == ShapeOf(n)
    ensures AxisClamp(m) == AxisClamp(n)
  {
  }

  lemma AbsOrderScale(a: real, b: real, s: real, sa: real, sb: real)
    requires s > 0.0 && sa == a * s && sb == b * s
    ensures Abs(sa) > Abs(sb) <==> Abs(a) > Abs(b)
    ensures Sign(sa) == Sign(a) && Sign(sb) == Sign(b)
  {
    var ka := AbsScale(a, s, sa);
    var kb := AbsScale(b, s, sb);
    ScaleOrder(Abs(a), Abs(b), s, ka, kb);
  }

  /** |a * s| = |a| * s, and the sign is kept, for s > 0; returns |a| * s. */
  lemma AbsScale(a: real, s: real, sa: real) returns (k: real)
    requires s > 0.0 && sa == a * s
    ensures k == Abs(a) * s && Abs(sa) == k && Sign(sa) == Sign(a)
  {
    k := Abs(a) * s;
    if a < 0.0 {
      assert sa < 0.0;
      assert -sa == (-a) * s;
    } else if a > 0.0 {
      assert sa > 0.0;
    } else {
      assert sa == 0.0;
    }
  }

  lemma ScaleOrder(a: real, b: real, s: real, sa: real, sb: real)
    requires s > 0.0 && sa == a * s && sb == b * s
    ensures sa > sb <==> a > b
  {
    assert sa - sb == (a - b) * s;
    if a > b {
      assert (a - b) * s > 0.0;
    } else {
      assert (b - a) * s >= 0.0;
    }
  }

  /** Every component of axisClamp's result is -1, 0 or 1, so toInt() reads it exactly. */
  lemma AxisClampTrunc(n: Vec3)
    ensures Vec3(Trunc(AxisClamp(n).x) as real, Trunc(AxisClamp(n).y) as real, Trunc(AxisClamp(n).z) as real) == AxisClamp(n)
  {
  }

  // ---------------------------------------------------------------- snap

  /** The push toward the hit face applied before snapping. */
  const Eps: real := 0.001

  /** snap(c, n) = floor(c - eps * n) + n, with n = -1, 0 or +1. */
  function Snap(c: real, n: int): (r: int)
    ensures (r - n) as real <= c - Eps * n as real < (r - n) as real + 1.0
  {
    Floor(c - Eps * n as real) + n
  }

  /** Without a normal component, snap is floor. */
  lemma SnapFlat(c: real)
    ensures Snap(c, 0) == Floor(c)
  {
  }

  /** A hit on (or just past) the integer plane k of a face whose normal points to +:
      snap gives k, so the new cell [k, k + 1] lies on the outer side of the face. */
  lemma SnapOutward(c: real, k: int)
    requires k as real <= c < k as real + Eps
    ensures Snap(c, 1) == k
  {
    assert (k - 1) as real <= c - Eps < k as real;
  }

  /** A hit on (or just before) the integer plane k of a face whose normal points to -:
      snap gives k - 1, so the new cell [k - 1, k] lies on the outer side of the face. */
  lemma SnapInward(c: real, k: int)
    requires k as real - Eps < c <= k as real
    ensures Snap(c, -1) == k - 1
  {
    assert k as real < c + Eps < (k + 1) as real;
  }

  /** The spawn cell for a hit point and the triangle normal there. */
  function PlacementCell(hit: Vec3, normal: Vec3): Vec3 {
    var h := AxisClamp(normal);
    Vec3(Snap(hit.x, Trunc(h.x)) as real, Snap(hit.y, Trunc(h.y)) as real, Snap(hit.z, Trunc(h.z)) as real)
  }

  /** A hit on the integer plane `face` along axis k, where k is the dominant axis of a
      normal, gives a cell that is floored on the two other axes and, along k, lies on
      the side the normal points to: it touches the face without overlapping the cell
      behind it. */
  lemma PlacementBesideFace(hit: Vec3, normal: Vec3, k: nat, face: int)
    requires k < 3 && Coord(hit, k) == face as real
    requires LastDominant(normal, k) && Coord(normal, k) != 0.0
    ensures forall j | 0 <= j < 3 && j != k :: Coord(PlacementCell(hit, normal), j) == Floor(Coord(hit, j)) as real
    ensures Coord(normal, k) > 0.0 ==> Coord(PlacementCell(hit, normal), k) == face as real
    ensures Coord(normal, k) < 0.0 ==> Coord(PlacementCell(hit, normal), k) == (face - 1) as real
  {
    AxisClampDominant(normal);
    var k' :| 0 <= k' < 3 && LastDominant(normal, k') && AxisClamp(normal) == AxisVector(k', Sign(Coord(normal, k')) as real);
    LastDominantUnique(normal, k, k');
    var h := AxisClamp(normal);
    assert forall j | 0 <= j < 3 && j != k :: Trunc(Coord(h, j)) == 0;
    if Coord(normal, k) > 0.0 {
      assert Trunc(Coord(h, k)) == 1;
      SnapOutward(Coord(hit, k), face);
    } else {
      assert Trunc(Coord(h, k)) == -1;
      SnapInward(Coord(hit, k), face);
    }
    forall j | 0 <= j < 3 && j != k ensures Coord(PlacementCell(hit, normal), j) == Floor(Coord(hit, j)) as real {
      SnapFlat(Coord(hit, j));
    }
  }

  // ---------------------------------------------------------------- the press

  /** Triangle t of a block as a placement candidate: the squared distance to the hit
      and the cell beside the hit face. */
  function CreateCandidate(pick: Pick, v: MeshView, t: nat): Option<Candidate<Vec3>>
    requires WellFormed(v) && 3 * t + 3 <= |v.indices|
  {
    var v1, v2, v3 := Corner(v, 3 * t), Corner(v, 3 * t + 1), Corner(v, 3 * t + 2);
    match pick.triangle(v1, v2, v3)
    case None => None
    case Some(h) => Some(Candidate(Dst2(pick.origin, h), PlacementCell(h, Cross(Sub(v2, v1), Sub(v3, v1)))))
  }

  /** The candidates of one block, triangle by triangle. */
  function PlacementCandidates(pick: Pick, v: MeshView): (cs: seq<Option<Candidate<Vec3>>>)
    requires WellFormed(v)
    ensures |cs| == |v.indices| / 3
    ensures forall t | 0 <= t < |cs| :: cs[t] == CreateCandidate(pick, v, t)
  {
    seq(|v.indices| / 3, t requires 0 <= t < |v.indices| / 3 => CreateCandidate(pick, v, t))
  }

  /** The candidates of all blocks, block by block. */
  function CreateCandidates(pick: Pick, vs: seq<MeshView>): seq<Option<Candidate<Vec3>>>
    requires forall k | 0 <= k < |vs| :: WellFormed(vs[k])
    decreases |vs|
  {
    if vs == [] then [] else CreateCandidates(pick, vs[..|vs| - 1]) + PlacementCandidates(pick, vs[|vs| - 1])
  }

  lemma CreateCandidatesStep(pick: Pick, vs: seq<MeshView>, b: nat)
    requires b < |vs| && forall k | 0 <= k < |vs| :: WellFormed(vs[k])
    ensures CreateCandidates(pick, vs[..b + 1]) == CreateCandidates(pick, vs[..b]) + PlacementCandidates(pick, vs[b])
  {
    assert vs[..b + 1][..b] == vs[..b];
  }

  /** The ground cell under a ground-plane hit. */
  function GroundCell(p: Vec3): Vec3 {
    Vec3(Floor(p.x) as real, 0.0, Floor(p.z) as real)
  }

  /** Where a press spawns the new cube: the cell of the nearest block triangle hit;
      failing that, the ground cell under the ground-plane hit; failing that, nowhere. */
  function PlacementFor(pick: Pick, vs: seq<MeshView>): (r: Option<Vec3>)
    requires forall k | 0 <= k < |vs| :: WellFormed(vs[k])
    ensures r.None? ==> PlaneHit(pick, GroundPlanes).None?
  {
    var nearest := Nearest(CreateCandidates(pick, vs));
    if nearest.Some? then Some(nearest.value.item)
    else
      match PlaneHit(pick, GroundPlanes)
      case None => None
      case Some(h) => Some(GroundCell(h.1))
  }

  /** A block hit wins over the ground plane whatever their distances: then the cell is
      that of the first nearest triangle hit. Only without any block hit does the ground
      decide, giving a cell with y = 0 and whole x and z. */
  lemma PlacementPriority(pick: Pick, vs: seq<MeshView>)
    requires forall k | 0 <= k < |vs| :: WellFormed(vs[k])
    ensures var cs := CreateCandidates(pick, vs);
      (exists j | 0 <= j < |cs| :: cs[j].Some?) ==>
        exists k | 0 <= k < |cs| :: IsFirstNearest(cs, k) && PlacementFor(pick, vs) == Some(cs[k].value.item)
    ensures var cs := CreateCandidates(pick, vs);
      (forall j | 0 <= j < |cs| :: cs[j].None?) ==>
        PlacementFor(pick, vs) == match PlaneHit(pick, GroundPlanes) case None => None case Some(h) => Some(GroundCell(h.1))
    ensures PlacementFor(pick, vs).Some? && Nearest(CreateCandidates(pick, vs)).None? ==>
      PlacementFor(pick, vs).value.y == 0.0 &&
      PlacementFor(pick, vs).value.x == PlacementFor(pick, vs).value.x.Floor as real &&
      PlacementFor(pick, vs).value.z == PlacementFor(pick, vs).value.z.Floor as real
  {
    NearestIsFirstNearest(CreateCandidates(pick, vs));
  }

  /** One pass of the triangle loop of applyCreate: test the triangle, and when the hit
      is strictly nearer, compute its clamped normal and snapped cell. */
  method ConsiderTriangle(pick: Pick, v: MeshView, i: nat, ghost t: nat, closest: Option<Candidate<Vec3>>)
    returns (next: Option<Candidate<Vec3>>)
    requires WellFormed(v) && i == 3 * t && i + 3 <= |v.indices|
    ensures next == Improve(closest, PlacementCandidates(pick, v)[t])
  {
    var v1 := Corner(v, i);
    var v2 := Corner(v, i + 1);
    var v3 := Corner(v, i + 2);
    var intersection := pick.triangle(v1, v2, v3);
    next := closest;
    if intersection.Some? {
      var d2 := Dst2(pick.origin, intersection.value);
      if closest.None? || d2 < closest.value.dist {
        var hitNormal := AxisClamp(Cross(Sub(v2, v1), Sub(v3, v1)));
        var placementPos := Vec3(Snap(intersection.value.x, Trunc(hitNormal.x)) as real,
                                 Snap(intersection.value.y, Trunc(hitNormal.y)) as real,
                                 Snap(intersection.value.z, Trunc(hitNormal.z)) as real);
        next := Some(Candidate(d2, placementPos));
      }
    }
  }

  /** The triangle loop over one block, continuing the scan of the blocks before it. */
  method ScanBlock(pick: Pick, v: MeshView, closest: Option<Candidate<Vec3>>, ghost before: seq<Option<Candidate<Vec3>>>)
    returns (next: Option<Candidate<Vec3>>)
    requires WellFormed(v) && closest == Nearest(before)
    ensures next == Nearest(before + PlacementCandidates(pick, v))
  {
    ghost var cs := PlacementCandidates(pick, v);
    next := closest;
    var i, t := 0, 0;
    assert before + cs[..0] == before;
    while i < |v.indices|
      invariant i == 3 * t && t <= |cs|
      invariant next == Nearest(before + cs[..t])
    {
      next := ScanTriangle(pick, v, i, t, next, before);
      i, t := i + 3, t + 1;
    }
    TriangleSlots(i, t, |v.indices|);
    assert cs[..t] == cs;
  }

  /** One step of ScanBlock: triangle t joins the scan. */
  method ScanTriangle(pick: Pick, v: MeshView, i: nat, ghost t: nat, closest: Option<Candidate<Vec3>>,
                      ghost before: seq<Option<Candidate<Vec3>>>)
    returns (next: Option<Candidate<Vec3>>)
    requires WellFormed(v) && i == 3 * t && i < |v.indices|
    requires closest == Nearest(before + PlacementCandidates(pick, v)[..t])
    ensures t < |PlacementCandidates(pick, v)| && next == Nearest(before + PlacementCandidates(pick, v)[..t + 1])
  {
    TriangleSlots(i, t, |v.indices|);
    next := ConsiderTriangle(pick, v, i, t, closest);
    NearestStep(before, PlacementCandidates(pick, v), t);
  }

  /** The ray cast against every block: the nearest triangle hit over all blocks. */
  method ScanBlocks(pick: Pick, bs: seq<Block>) returns (closest: Option<Candidate<Vec3>>)
    requires BlocksValid(bs)
    ensures ViewsWellFormedPre(bs) && closest == Nearest(CreateCandidates(pick, Views(bs)))
  {
    ViewsWellFormed(bs);
    ghost var vs := Views(bs);
    closest := None;
    for b := 0 to |bs|
      invariant closest == Nearest(CreateCandidates(pick, vs[..b]))
    {
      var view := ReadView(bs[b].instance);
      closest := ScanBlock(pick, view, closest, CreateCandidates(pick, vs[..b]));
      CreateCandidatesStep(pick, vs, b);
    }
    assert vs[..|bs|] == vs;
  }

  /** The first half of applyCreate: the block scan, then the ground plane. */
  method PlacementPosition(pick: Pick, bs: seq<Block>) returns (placementPos: Option<Vec3>)
    requires BlocksValid(bs)
    ensures ViewsWellFormedPre(bs) && placementPos == PlacementFor(pick, Views(bs))
  {
    var closest := ScanBlocks(pick, bs);
    placementPos := Item(closest);
    if placementPos.None? {
      var groundHit := FirstPlaneIntersection(pick, GroundPlanes);
      placementPos := if groundHit.Some? then Some(GroundCell(groundHit.value.1)) else None;
    }
  }

  /** The views of valid blocks can be scanned (a named form of ViewsWellFormed's
      conclusion, for contracts). */
  ghost predicate ViewsWellFormedPre(bs: seq<Block>)
    reads set k | 0 <= k < |bs| :: bs[k].instance
    reads set k | 0 <= k < |bs| :: bs[k].instance.mesh.vertices
  {
    forall k | 0 <= k < |bs| :: WellFormed(Views(bs)[k])
  }

  // ---------------------------------------------------------------- resizeMeshXZ

  /** Corners whose x is 1 in the unit cube, and corners whose z is 1. */
  const WidthCorners: seq<int> := [1, 2, 5, 6]
  const DepthCorners: seq<int> := [4, 5, 6, 7]

  /** The buffer with component `component` of every listed vertex set to `value`. */
  function SetSlots(base: seq<real>, corners: seq<int>, component: nat, value: real): (r: seq<real>)
    ensures |r| == |base|
  {
    seq(|base|, k requires 0 <= k < |base| => if k % Stride == component && k / Stride in corners then value else base[k])
  }

  /** What resizeMeshXZ writes: the pristine buffer with x of corners 1, 2, 5, 6 set to
      the width and z of corners 4, 5, 6, 7 set to the depth. */
  function ResizedXZ(base: seq<real>, width: real, depth: real): (r: seq<real>)
    ensures |r| == |base|
  {
    SetSlots(SetSlots(base, WidthCorners, 0, width), DepthCorners, 2, depth)
  }

  /** Adding one vertex to the list writes one more float. */
  lemma SetSlotsStep(base: seq<real>, corners: seq<int>, c: int, component: nat, value: real)
    requires 0 <= c && component < Stride && Stride * c + component < |base|
    ensures SetSlots(base, corners + [c], component, value) == SetSlots(base, corners, component, value)[Stride * c + component := value]
  {
    var a, b := SetSlots(base, corners + [c], component, value), SetSlots(base, corners, component, value)[Stride * c + component := value];
    forall k | 0 <= k < |base| ensures a[k] == b[k] {
      if k == Stride * c + component {
        assert k % Stride == component && k / Stride == c;
      } else {
        assert !(k % Stride == component && k / Stride == c);
      }
    }
  }

  lemma SlotOf(i: nat, c: nat)
    requires c < Stride
    ensures (Stride * i + c) % Stride == c && (Stride * i + c) / Stride == i
  {
  }

  lemma SetSlotsAt(base: seq<real>, corners: seq<int>, component: nat, value: real, i: nat, c: nat, k: nat)
    requires c < Stride && k == Stride * i + c && k < |base|
    ensures SetSlots(base, corners, component, value)[k] == if c == component && i in corners then value else base[k]
  {
    SlotOf(i, c);
  }

  /** Setting a position component of the listed vertices changes vertex i only there. */
  lemma SetSlotsVertex(base: seq<real>, corners: seq<int>, component: nat, value: real, i: nat)
    requires component < 3 && Stride * i + Stride <= |base|
    ensures PositionAt(SetSlots(base, corners, component, value), i) ==
      Vec3(if component == 0 && i in corners then value else PositionAt(base, i).x,
           if component == 1 && i in corners then value else PositionAt(base, i).y,
           if component == 2 && i in corners then value else PositionAt(base, i).z)
    ensures NormalAt(SetSlots(base, corners, component, value), i) == NormalAt(base, i)
  {
    var b := Stride * i;
    SetSlotsAt(base, corners, component, value, i, 0, b + 0);
    SetSlotsAt(base, corners, component, value, i, 1, b + 1);
    SetSlotsAt(base, corners, component, value, i, 2, b + 2);
    SetSlotsAt(base, corners, component, value, i, 3, b + 3);
    SetSlotsAt(base, corners, component, value, i, 4, b + 4);
    SetSlotsAt(base, corners, component, value, i, 5, b + 5);
  }

  /** Resizing sets the x of width corners and the z of depth corners, and keeps every
      other position component and every normal component. */
  lemma ResizedAt(base: seq<real>, width: real, depth: real, i: nat)
    requires Stride * i + Stride <= |base|
    ensures PositionAt(ResizedXZ(base, width, depth), i) ==
      Vec3(if i in WidthCorners then width else PositionAt(base, i).x,
           PositionAt(base, i).y,
           if i in DepthCorners then depth else PositionAt(base, i).z)
    ensures NormalAt(ResizedXZ(base, width, depth), i) == NormalAt(base, i)
  {
    SetSlotsVertex(base, WidthCorners, 0, width, i);
    SetSlotsVertex(SetSlots(base, WidthCorners, 0, width), DepthCorners, 2, depth, i);
  }

  /** On the cube buffer, resizing scales the unit cube by (width, 1, depth): corner i
      moves to (x * width, y, z * depth) and keeps its normal. So the result depends only
      on width and depth, and resizing twice to the same size is resizing once. */
  lemma ResizedCube(width: real, depth: real, i: nat)
    requires i < 8
    ensures PositionAt(ResizedXZ(CubeVertexData(), width, depth), i) ==
      Vec3(Corners[i].x * width, Corners[i].y, Corners[i].z * depth)
    ensures NormalAt(ResizedXZ(CubeVertexData(), width, depth), i) == NormalAt(CubeVertexData(), i)
  {
    CubeBuffer(i);
    ResizedCorner(CubeVertexData(), width, depth, i);
  }

  lemma ResizedCorner(base: seq<real>, width: real, depth: real, i: nat)
    requires i < 8 && |base| == 48 && PositionAt(base, i) == Corners[i]
    ensures PositionAt(ResizedXZ(base, width, depth), i) ==
      Vec3(Corners[i].x * width, Corners[i].y, Corners[i].z * depth)
    ensures NormalAt(ResizedXZ(base, width, depth), i) == NormalAt(base, i)
  {
    ResizedAt(base, width, depth, i);
    CornerCoordinates();
    assert i in WidthCorners <==> i in {1, 2, 5, 6};
    assert i in DepthCorners <==> i in {4, 5, 6, 7};
  }

  // ---------------------------------------------------------------- the drag

  /** max(1, |p - a|): a footprint side is at least one cell. */
  function DragSize(p: real, a: real): (w: real)
    ensures w >= 1.0 && w >= Abs(p - a)
  {
    MaxR(1.0, Abs(p - a))
  }

  /** From min(p, a), the side reaches max(p, a) when the drag spans at least a cell,
      and one cell otherwise. */
  lemma DragSpan(p: real, a: real)
    ensures Abs(p - a) >= 1.0 ==> MinR(p, a) + DragSize(p, a) == MaxR(p, a)
    ensures Abs(p - a) < 1.0 ==> DragSize(p, a) == 1.0
  {
  }

  /** The mesh shape of the drawing block: a cube-shaped mesh under an identity node. */
  predicate DrawingShape(inst: Instance) {
    && inst.mesh.Valid() && inst.mesh.numVertices == 8 && inst.mesh.indices == CubeIndices
    && inst.node == Identity
  }

  class DrawingHandler {
    /** The block list shared with the scene renderer. */
    const blocks: BlockList
    /** unitCubeVertices: the buffer of the handler's cube model, which is never written
        (the constructor sets it to CubeVertexData()). */
    const unitCubeVertices: seq<real>
    var initialDrawingPoint: Vec3
    var drawingBlock: Instance?

    ghost predicate Valid()
      reads this
    {
      && |unitCubeVertices| == 48
      && (drawingBlock != null ==> DrawingShape(drawingBlock))
    }

    /** What a drag may change: the drawing block's transform and its vertex buffer. */
    function DrawingFrame(): set<object>
      reads this
    {
      if drawingBlock == null then {} else {drawingBlock, drawingBlock.mesh.vertices}
    }

    constructor (blocks: BlockList)
      ensures this.blocks == blocks && drawingBlock == null && initialDrawingPoint == Zero
      ensures unitCubeVertices == CubeVertexData()
      ensures Valid()
    {
      var cubeModel := CreateIndexedCubeModel();
      var vertices := cubeModel.GetVertices();
      this.blocks := blocks;
      unitCubeVertices := vertices[..];
      drawingBlock := null;
      initialDrawingPoint := Zero;
    }

    /** cloneModel(cubeModel): a new mesh holding a copy of the pristine buffer and the
        cube's indices. */
    method CloneCube() returns (mesh: Mesh)
      requires Valid()
      ensures fresh(mesh) && fresh(mesh.vertices)
      ensures mesh.vertices[..] == unitCubeVertices && mesh.numVertices == 8 && mesh.indices == CubeIndices
      ensures mesh.Valid()
    {
      IndexTable();
      mesh := new Mesh(8, unitCubeVertices, CubeIndices);
    }

    /** applyCreate: spawns a new drawing block at the placement cell, if there is one. */
    method ApplyCreate(pick: Pick)
      requires Valid() && BlocksValid(blocks.blocks)
      modifies this
      ensures Valid()
      ensures var pos := old(PlacementFor(pick, Views(blocks.blocks)));
        && (pos.None? ==> drawingBlock == old(drawingBlock) && initialDrawingPoint == old(initialDrawingPoint))
        && (pos.Some? ==>
              && drawingBlock != null && fresh(drawingBlock) && fresh(drawingBlock.mesh.vertices)
              && drawingBlock.transform == Translation(pos.value)
              && drawingBlock.mesh.vertices[..] == unitCubeVertices
              && initialDrawingPoint == pos.value)
    {
      var placementPos := PlacementPosition(pick, blocks.blocks);
      if placementPos.Some? {
        var pos := placementPos.value;
        var mesh := CloneCube();
        var inst := new Instance(mesh, Identity, Translation(pos));
        drawingBlock := inst;
        initialDrawingPoint := pos;
      }
    }

    /** resizeMeshXZ: starts from a fresh copy of the pristine buffer, sets the x of
        corners 1, 2, 5, 6 to `width` and the z of corners 4, 5, 6, 7 to `depth`, and
        stores the result in the mesh. */
    method ResizeMeshXZ(mesh: Mesh, width: real, depth: real)
      requires |unitCubeVertices| == 48 && mesh.vertices.Length == 48
      modifies mesh.vertices
      ensures mesh.vertices[..] == ResizedXZ(unitCubeVertices, width, depth)
    {
      var verts := new real[48](k requires 0 <= k < 48 => unitCubeVertices[k]);
      assert verts[..] == SetSlots(unitCubeVertices, [], 0, width);
      var xs := WidthCorners;
      for j := 0 to 4
        invariant verts[..] == SetSlots(unitCubeVertices, xs[..j], 0, width)
      {
        verts[xs[j] * Stride + PosOffset] := width;
        SetSlotsStep(unitCubeVertices, xs[..j], xs[j], 0, width);
        assert xs[..j + 1] == xs[..j] + [xs[j]];
      }
      ghost var widened := verts[..];
      assert xs[..4] == WidthCorners;
      assert verts[..] == SetSlots(widened, [], 2, depth);
      var zs := DepthCorners;
      for j := 0 to 4
        invariant verts[..] == SetSlots(widened, zs[..j], 2, depth)
      {
        verts[zs[j] * Stride + PosOffset + 2] := depth;
        SetSlotsStep(widened, zs[..j], zs[j], 2, depth);
        assert zs[..j + 1] == zs[..j] + [zs[j]];
      }
      assert zs[..4] == DepthCorners;
      mesh.SetVertices(verts);
    }

    /** touchDragged: with a drawing block and a scene-plane hit, resize the block's
        footprint to the truncated hit point from the anchor and place it at the lower
        x and z of the two, on the anchor's layer. */
    method TouchDragged(pick: Pick) returns (handled: bool)
      requires Valid()
      modifies DrawingFrame()
      ensures Valid()
      ensures handled <==> drawingBlock != null && PlaneHit(pick, ScenePlanes).Some?
      ensures !handled && drawingBlock != null ==> unchanged(drawingBlock) && unchanged(drawingBlock.mesh.vertices)
      ensures handled ==>
        var p := TruncVec(PlaneHit(pick, ScenePlanes).value.1);
        var a := initialDrawingPoint;
        && drawingBlock.mesh.vertices[..] == ResizedXZ(unitCubeVertices, DragSize(p.x, a.x), DragSize(p.z, a.z))
        && drawingBlock.transform == Translation(Vec3(MinR(p.x, a.x), a.y, MinR(p.z, a.z)))
    {
      if drawingBlock == null {
        return false;
      }
      var hit := FirstPlaneIntersection(pick, ScenePlanes);
      if hit.None? {
        return false;
      }
      var p := TruncVec(hit.value.1);
      var w := MaxR(1.0, Abs(p.x - initialDrawingPoint.x));
      var d := MaxR(1.0, Abs(p.z - initialDrawingPoint.z));
      ResizeMeshXZ(drawingBlock.mesh, w, d);
      drawingBlock.transform := Translation(Vec3(MinR(p.x, initialDrawingPoint.x), initialDrawingPoint.y,
                                                 MinR(p.z, initialDrawingPoint.z)));
      return true;
    }

    /** touchUp: commits the drawing block to the list with its world bounds. */
    method TouchUp() returns (committed: bool)
      requires Valid()
      modifies this, blocks
      ensures Valid() && drawingBlock == null && initialDrawingPoint == old(initialDrawingPoint)
      ensures committed <==> old(drawingBlock) != null
      ensures committed ==> blocks.blocks == old(blocks.blocks) + [Block(old(drawingBlock), InstanceBounds(old(drawingBlock)))]
      ensures !committed ==> blocks.blocks == old(blocks.blocks)
    {
      if drawingBlock != null {
        var bounds := InstanceBounds(drawingBlock);
        var block := Block(drawingBlock, bounds);
        blocks.Add(block);
        drawingBlock := null;
        return true;
      }
      return false;
    }
  }
}
