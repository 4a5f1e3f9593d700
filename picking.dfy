/** The picking loops the handlers share. Each scans candidates in order and keeps one
    only when its squared distance from the ray origin is strictly smaller than the
    best so far: the nearest scene plane the ray hits, the nearest block whose bounds
    the ray meets (measured to the centre of the bounds), and the face (group of six
    indices) of the nearest triangle the ray hits. */
module Picking {
  import opened Geometry
  import opened Selection
  import opened Scene
  import opened Unique

  /** What a picking loop reads of a model instance: its first node's global transform,
      the instance transform, a copy of the vertex buffer and the index list. */
  datatype MeshView = MeshView(node: Transform, transform: Transform, vertices: seq<real>, indices: seq<int>)

  /** Indices come in triangles and each names a vertex of the buffer. */
  predicate WellFormed(v: MeshView) {
    && |v.indices| % 3 == 0
    && forall k | 0 <= k < |v.indices| :: 0 <= v.indices[k] && Stride * v.indices[k] + Stride <= |v.vertices|
  }

  /** The view of an instance as it is now. */
  function View(inst: Instance): (v: MeshView)
    reads inst, inst.mesh.vertices
    ensures v.vertices == inst.mesh.vertices[..] && v.indices == inst.mesh.indices
    ensures v.node == inst.node && v.transform == inst.transform
    ensures inst.mesh.Valid() ==> WellFormed(v) && |v.indices| % 6 == 0
  {
    MeshView(inst.node, inst.transform, inst.mesh.vertices[..], inst.mesh.indices)
  }

  /** Reads the view of an instance the way the source does: getVerticesForMesh copies
      the buffer, getIndicesForMesh the indices. */
  method ReadView(inst: Instance) returns (v: MeshView)
    ensures v == View(inst)
  {
    var vertices := inst.mesh.GetVertices();
    v := MeshView(inst.node, inst.transform, vertices[..], inst.mesh.indices);
  }

  /** The views of a list of blocks, as they are now. */
  function Views(bs: seq<Block>): (vs: seq<MeshView>)
    reads set k | 0 <= k < |bs| :: bs[k].instance
    reads set k | 0 <= k < |bs| :: bs[k].instance.mesh.vertices
    ensures |vs| == |bs|
    ensures forall k | 0 <= k < |bs| :: vs[k] == View(bs[k].instance)
  {
    seq(|bs|, k requires 0 <= k < |bs| reads if 0 <= k < |bs| then {bs[k].instance, bs[k].instance.mesh.vertices} else {} =>
      View(bs[k].instance))
  }

  /** Every block's mesh has the editor's shape, so every view can be scanned. */
  predicate BlocksValid(bs: seq<Block>) {
    forall k | 0 <= k < |bs| :: bs[k].instance.mesh.Valid()
  }

  lemma ViewsWellFormed(bs: seq<Block>)
    requires BlocksValid(bs)
    ensures forall k | 0 <= k < |bs| :: WellFormed(Views(bs)[k])
  {
  }

  /** The world position of the vertex named at index slot k:
      transformVertex(createVertexVector(vertices, indices[k], stride, posOffset)). */
  function Corner(v: MeshView, k: int): Vec3
    requires WellFormed(v) && 0 <= k < |v.indices|
  {
    WorldPosition(v.node, v.transform, v.vertices, v.indices[k])
  }

  /** What the caller keeps of a candidate, or None when there is none. */
  function Item<T>(c: Option<Candidate<T>>): (r: Option<T>)
    ensures r.Some? <==> c.Some?
    ensures c.Some? ==> r.value == c.value.item
  {
    if c.Some? then Some(c.value.item) else None
  }

  // ---------------------------------------------------------------- scene planes

  /** A scene plane as a candidate: the plane and the point where the ray meets it. */
  function PlaneCandidate(pick: Pick, sp: ScenePlane): Option<Candidate<(ScenePlane, Vec3)>> {
    var hit := pick.plane(sp.plane);
    HitCandidate(pick.origin, hit, (sp, if hit.Some? then hit.value else Zero))
  }

  function PlaneCandidates(pick: Pick, planes: seq<ScenePlane>): (cs: seq<Option<Candidate<(ScenePlane, Vec3)>>>)
    ensures |cs| == |planes|
    ensures forall k | 0 <= k < |planes| :: cs[k] == PlaneCandidate(pick, planes[k])
  {
    seq(|planes|, k requires 0 <= k < |planes| => PlaneCandidate(pick, planes[k]))
  }

  /** The plane the ray meets first and the point where it meets it. */
  function PlaneHit(pick: Pick, planes: seq<ScenePlane>): (r: Option<(ScenePlane, Vec3)>)
    ensures r.Some? ==> r.value.0 in planes && pick.plane(r.value.0.plane) == Some(r.value.1)
  {
    NearestIsFirstNearest(PlaneCandidates(pick, planes));
    Item(Nearest(PlaneCandidates(pick, planes)))
  }

  /** getFirstPlaneIntersection: the loop keeping closestDist, closestPlane and
      closestIntersection, here held together as one optional candidate. */
  method FirstPlaneIntersection(pick: Pick, planes: seq<ScenePlane>) returns (hit: Option<(ScenePlane, Vec3)>)
    ensures hit == PlaneHit(pick, planes)
  {
    var closest: Option<Candidate<(ScenePlane, Vec3)>> := None;
    ghost var cs := PlaneCandidates(pick, planes);
    for k := 0 to |planes|
      invariant closest == Nearest(cs[..k])
    {
      var scenePlane := planes[k];
      var intersection := pick.plane(scenePlane.plane);
      closest := KeepNearer(closest, pick.origin, intersection,
                            (scenePlane, if intersection.Some? then intersection.value else Zero));
      assert cs[..k + 1] == cs[..k] + [cs[k]];
      NearestSnoc(cs[..k], cs[k]);
    }
    assert cs[..|planes|] == cs;
    hit := Item(closest);
  }

  /** No hit exactly when the ray meets none of the planes; otherwise the hit is the
      first plane at the least distance, with the point where the ray meets it. */
  lemma PlaneHitSpec(pick: Pick, planes: seq<ScenePlane>)
    ensures PlaneHit(pick, planes).None? <==> forall k | 0 <= k < |planes| :: pick.plane(planes[k].plane).None?
    ensures PlaneHit(pick, planes).Some? ==>
      exists k | 0 <= k < |planes| :: IsFirstNearest(PlaneCandidates(pick, planes), k) &&
        pick.plane(planes[k].plane).Some? && PlaneHit(pick, planes).value == (planes[k], pick.plane(planes[k].plane).value)
  {
    var cs := PlaneCandidates(pick, planes);
    NearestIsFirstNearest(cs);
    assert forall k | 0 <= k < |planes| :: cs[k].None? <==> pick.plane(planes[k].plane).None?;
  }

  // ---------------------------------------------------------------- blocks

  /** A block as a candidate: when the ray meets its bounds, the squared distance from
      the ray origin to the centre of the bounds. */
  function BlockCandidate(pick: Pick, b: Block): Option<Candidate<Block>> {
    HitCandidate(pick.origin, if pick.box(b.bounds) then Some(Center(b.bounds)) else None, b)
  }

  function BlockCandidates(pick: Pick, bs: seq<Block>): (cs: seq<Option<Candidate<Block>>>)
    ensures |cs| == |bs|
    ensures forall k | 0 <= k < |bs| :: cs[k] == BlockCandidate(pick, bs[k])
  {
    seq(|bs|, k requires 0 <= k < |bs| => BlockCandidate(pick, bs[k]))
  }

  function ClosestBlock(pick: Pick, bs: seq<Block>): (r: Option<Block>)
    ensures r.Some? ==> pick.box(r.value.bounds)
  {
    NearestIsFirstNearest(BlockCandidates(pick, bs));
    Item(Nearest(BlockCandidates(pick, bs)))
  }

  /** The applySelectFace loop over the blocks keeping minDistance and closestBlock. */
  method FindClosestBlock(pick: Pick, bs: seq<Block>) returns (closestBlock: Option<Block>)
    ensures closestBlock == ClosestBlock(pick, bs)
  {
    var closest: Option<Candidate<Block>> := None;
    ghost var cs := BlockCandidates(pick, bs);
    for k := 0 to |bs|
      invariant closest == Nearest(cs[..k])
    {
      var block := bs[k];
      var center := if pick.box(block.bounds) then Some(Center(block.bounds)) else None;
      closest := KeepNearer(closest, pick.origin, center, block);
      assert cs[..k + 1] == cs[..k] + [cs[k]];
      NearestSnoc(cs[..k], cs[k]);
    }
    assert cs[..|bs|] == cs;
    closestBlock := Item(closest);
  }

  /** No block is picked exactly when the ray meets no bounds; otherwise the picked block
      is one whose bounds the ray meets, with the least centre distance, and every
      earlier block so met is strictly farther. */
  lemma ClosestBlockSpec(pick: Pick, bs: seq<Block>)
    ensures ClosestBlock(pick, bs).None? <==> forall k | 0 <= k < |bs| :: !pick.box(bs[k].bounds)
    ensures ClosestBlock(pick, bs).Some? ==>
      exists k | 0 <= k < |bs| :: IsFirstNearest(BlockCandidates(pick, bs), k) &&
        pick.box(bs[k].bounds) && ClosestBlock(pick, bs).value == bs[k]
  {
    var cs := BlockCandidates(pick, bs);
    NearestIsFirstNearest(cs);
    assert forall k | 0 <= k < |bs| :: cs[k].None? <==> !pick.box(bs[k].bounds);
  }

  /** The picked block is one of the list's blocks. */
  lemma ClosestBlockIn(pick: Pick, bs: seq<Block>)
    ensures ClosestBlock(pick, bs).Some? ==> ClosestBlock(pick, bs).value in bs
  {
    ClosestBlockSpec(pick, bs);
  }

  // ---------------------------------------------------------------- faces

  /** hitFaceStartIndex = i - (i % 6): the first index slot of the quad holding slot i. */
  function FaceStart(i: nat): (s: nat)
    ensures s % 6 == 0 && s <= i < s + 6
  {
    i - i % 6
  }

  /** Triangle t (index slots 3t .. 3t + 2) as a candidate: the ray's hit point with it,
      and the start of the face holding it. */
  function FaceCandidate(pick: Pick, v: MeshView, t: nat): Option<Candidate<nat>>
    requires WellFormed(v) && 3 * t + 3 <= |v.indices|
  {
    HitCandidate(pick.origin, pick.triangle(Corner(v, 3 * t), Corner(v, 3 * t + 1), Corner(v, 3 * t + 2)), FaceStart(3 * t))
  }

  function FaceCandidates(pick: Pick, v: MeshView, n: nat): (cs: seq<Option<Candidate<nat>>>)
    requires WellFormed(v) && 3 * n <= |v.indices|
    ensures |cs| == n
    ensures forall t | 0 <= t < n :: cs[t] == FaceCandidate(pick, v, t)
  {
    seq(n, t requires 0 <= t < n => FaceCandidate(pick, v, t))
  }

  /** The start of the face of the nearest triangle the ray hits. */
  function HitFace(pick: Pick, v: MeshView): (r: Option<nat>)
    requires WellFormed(v)
    ensures r.Some? ==> r.value % 6 == 0 && r.value < |v.indices|
  {
    NearestIsFirstNearest(FaceCandidates(pick, v, |v.indices| / 3));
    Item(Nearest(FaceCandidates(pick, v, |v.indices| / 3)))
  }

  /** The triangle loop of getLastHitFaceIndices / getHitRectangle, keeping minDist and
      hitFaceStartIndex; None stands for the source's -1. */
  method HitFaceStart(pick: Pick, v: MeshView) returns (start: Option<nat>)
    requires WellFormed(v)
    ensures start == HitFace(pick, v)
  {
    var closest: Option<Candidate<nat>> := None;
    var n := |v.indices| / 3;
    ghost var cs := FaceCandidates(pick, v, n);
    var i, t := 0, 0;
    while i < |v.indices|
      invariant i == 3 * t && t <= n
      invariant closest == Nearest(cs[..t])
    {
      TriangleSlots(i, t, |v.indices|);
      closest := ConsiderTriangle(pick, v, i, t, closest);
      assert cs[..t + 1] == cs[..t] + [cs[t]];
      NearestSnoc(cs[..t], cs[t]);
      i, t := i + 3, t + 1;
    }
    TriangleSlots(i, t, |v.indices|);
    assert cs[..t] == cs;
    start := Item(closest);
  }

  /** One pass of the triangle loop: the triangle at slots i, i + 1, i + 2 is intersected
      and kept when strictly nearer. */
  method ConsiderTriangle(pick: Pick, v: MeshView, i: nat, ghost t: nat, closest: Option<Candidate<nat>>)
    returns (next: Option<Candidate<nat>>)
    requires WellFormed(v) && i == 3 * t && i + 3 <= |v.indices|
    ensures next == Improve(closest, FaceCandidate(pick, v, t))
  {
    var v1 := Corner(v, i);
    var v2 := Corner(v, i + 1);
    var v3 := Corner(v, i + 2);
    var intersection := pick.triangle(v1, v2, v3);
    next := KeepNearer(closest, pick.origin, intersection, FaceStart(i));
  }

  /** No face exactly when the ray hits no triangle. Otherwise the face is the one
      holding the first nearest triangle hit; it starts at a multiple of 6 and, when the
      indices come in quads, all six of its slots exist. */
  lemma HitFaceSpec(pick: Pick, v: MeshView)
    requires WellFormed(v)
    ensures HitFace(pick, v).None? <==>
      forall t | 0 <= t < |v.indices| / 3 :: pick.triangle(Corner(v, 3 * t), Corner(v, 3 * t + 1), Corner(v, 3 * t + 2)).None?
    ensures HitFace(pick, v).Some? ==>
      exists t | 0 <= t < |v.indices| / 3 :: IsFirstNearest(FaceCandidates(pick, v, |v.indices| / 3), t) &&
        HitFace(pick, v).value == FaceStart(3 * t)
    ensures HitFace(pick, v).Some? ==> HitFace(pick, v).value % 6 == 0 && HitFace(pick, v).value < |v.indices|
    ensures HitFace(pick, v).Some? && |v.indices| % 6 == 0 ==> HitFace(pick, v).value + 6 <= |v.indices|
  {
    var n := |v.indices| / 3;
    var cs := FaceCandidates(pick, v, n);
    NearestIsFirstNearest(cs);
    assert forall t | 0 <= t < n :: cs[t].None? <==>
      pick.triangle(Corner(v, 3 * t), Corner(v, 3 * t + 1), Corner(v, 3 * t + 2)).None?;
    if HitFace(pick, v).Some? {
      var t :| 0 <= t < n && IsFirstNearest(cs, t) && HitFace(pick, v).value == FaceStart(3 * t);
      assert FaceStart(3 * t) <= 3 * t < |v.indices|;
      if |v.indices| % 6 == 0 {
        SixAligned(FaceStart(3 * t), |v.indices|);
      }
    }
  }

  /** Triangle t starts at slot 3 * t; it exists exactly when t is below the count. */
  lemma TriangleSlots(i: nat, t: nat, len: nat)
    requires len % 3 == 0 && i == 3 * t
    ensures i < len <==> t < len / 3
    ensures i < len ==> i + 3 <= len
  {
    var c := len / 3;
    assert len == 3 * c;
  }

  /** Below a multiple of 6, a multiple of 6 leaves room for six more. */
  lemma SixAligned(s: nat, n: nat)
    requires s % 6 == 0 && n % 6 == 0 && s < n
    ensures s + 6 <= n
  {
    var a, b := s / 6, n / 6;
    assert s == 6 * a && n == 6 * b;
  }

  /** The slots of the face starting at `start`, when that face exists. */
  predicate FaceExists(v: MeshView, start: nat) {
    start % 6 == 0 && start + 6 <= |v.indices|
  }

  /** getLastHitFaceIndices: the vertex indices of the hit face, in the insertion order of
      the Kotlin LinkedHashSet (first occurrences), or none when no triangle is hit. */
  function LastHitFaceIndices(pick: Pick, v: MeshView): (r: seq<int>)
    requires WellFormed(v) && |v.indices| % 6 == 0
    ensures |r| <= 6
  {
    HitFaceSpec(pick, v);
    match HitFace(pick, v)
    case None => []
    case Some(s) =>
      DedupSpec(v.indices[s .. s + 6]);
      Dedup(v.indices[s .. s + 6])
  }

  /** The face's vertex indices: no index twice, exactly the indices of the face's six
      slots, each naming a vertex of the buffer; none when no triangle is hit. */
  lemma LastHitFaceIndicesSpec(pick: Pick, v: MeshView)
    requires WellFormed(v) && |v.indices| % 6 == 0
    ensures HitFace(pick, v).None? ==> LastHitFaceIndices(pick, v) == []
    ensures HitFace(pick, v).Some? ==> FaceExists(v, HitFace(pick, v).value)
    ensures HitFace(pick, v).Some? ==> forall x ::
      x in LastHitFaceIndices(pick, v) <==> x in v.indices[HitFace(pick, v).value .. HitFace(pick, v).value + 6]
    ensures NoDuplicates(LastHitFaceIndices(pick, v))
    ensures forall k | 0 <= k < |LastHitFaceIndices(pick, v)| ::
      0 <= LastHitFaceIndices(pick, v)[k] && Stride * LastHitFaceIndices(pick, v)[k] + Stride <= |v.vertices|
  {
    HitFaceSpec(pick, v);
    var r := LastHitFaceIndices(pick, v);
    if HitFace(pick, v).Some? {
      var s := HitFace(pick, v).value;
      DedupSpec(v.indices[s .. s + 6]);
      forall k | 0 <= k < |r| ensures 0 <= r[k] && Stride * r[k] + Stride <= |v.vertices| {
        assert r[k] in v.indices[s .. s + 6];
      }
    }
  }

  /** The face's vertex indices as the source collects them: a LinkedHashSet filled from
      the six slots of the face (or the empty set). */
  method FaceIndices(pick: Pick, v: MeshView) returns (faceIndices: seq<int>)
    requires WellFormed(v) && |v.indices| % 6 == 0
    ensures faceIndices == LastHitFaceIndices(pick, v)
  {
    var start := HitFaceStart(pick, v);
    HitFaceSpec(pick, v);
    if start.Some? {
      faceIndices := UniqueInOrder(v.indices[start.value .. start.value + 6]);
    } else {
      faceIndices := [];
    }
  }

  /** The six world-space vertices of the face starting at `start`, in slot order. */
  function FaceVertices(v: MeshView, start: nat): (vs: seq<Vec3>)
    requires WellFormed(v) && FaceExists(v, start)
    ensures |vs| == 6
    ensures forall j | 0 <= j < 6 :: vs[j] == Corner(v, start + j)
  {
    seq(6, j requires 0 <= j < 6 => Corner(v, start + j))
  }

  /** getHitRectangle: the six vertices of the hit face, or none. */
  function HitRectangle(pick: Pick, v: MeshView): (r: Option<seq<Vec3>>)
    requires WellFormed(v) && |v.indices| % 6 == 0
    ensures r.Some? <==> HitFace(pick, v).Some?
    ensures r.Some? ==> |r.value| == 6
  {
    HitFaceSpec(pick, v);
    match HitFace(pick, v)
    case None => None
    case Some(s) => Some(FaceVertices(v, s))
  }

  /** getHitRectangle: the nearest face's six slots transformed to world space and
      collected in slot order. */
  method GetHitRectangle(pick: Pick, v: MeshView) returns (rectangle: Option<seq<Vec3>>)
    requires WellFormed(v) && |v.indices| % 6 == 0
    ensures rectangle == HitRectangle(pick, v)
    ensures rectangle.Some? ==> |rectangle.value| == 6
  {
    var start := HitFaceStart(pick, v);
    HitFaceSpec(pick, v);
    if start.None? {
      return None;
    }
    var rectangleVertices := CollectFace(v, start.value);
    rectangle := Some(rectangleVertices);
  }

  /** The loop of getHitRectangle: the six slots of the face from `start`, in world
      space, in slot order. */
  method CollectFace(v: MeshView, start: nat) returns (rectangleVertices: seq<Vec3>)
    requires WellFormed(v) && FaceExists(v, start)
    ensures rectangleVertices == FaceVertices(v, start)
  {
    ghost var face := FaceVertices(v, start);
    rectangleVertices := [];
    for i := start to start + 6
      invariant rectangleVertices == face[..i - start]
    {
      var vert := Corner(v, i);
      rectangleVertices := rectangleVertices + [vert];
      assert face[..i + 1 - start] == face[..i - start] + [face[i - start]];
    }
    assert face[..6] == face;
  }
}
