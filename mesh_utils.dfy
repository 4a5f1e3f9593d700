/** MeshUtils.createIndexedCubeModel: the canonical unit cube as 8 shared corners,
    36 indices (6 per quad face), per-corner accumulated triangle normals and the
    interleaved position/normal vertex buffer. */
module MeshUtils {
  import opened Geometry
  import opened Unique
  import opened Scene

  /** The 8 shared corners. */
  const Corners: seq<Vec3> := [
    Vec3(0.0, 0.0, 0.0), Vec3(1.0, 0.0, 0.0), Vec3(1.0, 1.0, 0.0), Vec3(0.0, 1.0, 0.0),
    Vec3(0.0, 0.0, 1.0), Vec3(1.0, 0.0, 1.0), Vec3(1.0, 1.0, 1.0), Vec3(0.0, 1.0, 1.0)
  ]

  /** The index table's six rows, one per face group of two triangles (the source's
      comments name them Bottom, Top, Front, Back, Left, Right). */
  const CubeGroups: seq<seq<int>> := [
    [2, 1, 0, 0, 3, 2],
    [7, 4, 5, 5, 6, 7],
    [6, 2, 3, 3, 7, 6],
    [1, 5, 4, 4, 0, 1],
    [3, 0, 4, 4, 7, 3],
    [2, 6, 5, 5, 1, 2]
  ]

  /** The 36-entry index table: the six rows in order. */
  const CubeIndices: seq<int> :=
    CubeGroups[0] + CubeGroups[1] + CubeGroups[2] + CubeGroups[3] + CubeGroups[4] + CubeGroups[5]

  /** Corner i has x = 1 exactly for i in {1, 2, 5, 6}, y = 1 exactly for
      i in {2, 3, 6, 7}, z = 1 exactly for i in {4, 5, 6, 7}, and 0 otherwise. */
  lemma CornerCoordinates()
    ensures |Corners| == 8
    ensures forall i | 0 <= i < 8 :: Corners[i].x == if i in {1, 2, 5, 6} then 1.0 else 0.0
    ensures forall i | 0 <= i < 8 :: Corners[i].y == if i in {2, 3, 6, 7} then 1.0 else 0.0
    ensures forall i | 0 <= i < 8 :: Corners[i].z == if i in {4, 5, 6, 7} then 1.0 else 0.0
  {
  }

  /** Every index names one of `n` vertices. */
  predicate IndicesIn(idx: seq<int>, n: int) {
    forall k | 0 <= k < |idx| :: 0 <= idx[k] < n
  }

  /** Triangle t (indices 3t, 3t + 1, 3t + 2) exists and names three of `n` vertices. */
  predicate TriangleIn(idx: seq<int>, n: int, t: nat) {
    3 * t + 3 <= |idx| && 0 <= idx[3 * t] < n && 0 <= idx[3 * t + 1] < n && 0 <= idx[3 * t + 2] < n
  }

  /** 36 indices, a whole number of six-index groups, every one naming a corner. */
  lemma IndexTable()
    ensures |CubeIndices| == 36 && |CubeIndices| % 6 == 0
    ensures IndicesIn(CubeIndices, |Corners|)
  {
  }

  /** Face group g: indices 6g .. 6g + 5. */
  function Group(g: nat): seq<int>
    requires g < 6
  {
    assert |CubeIndices| == 36;
    CubeIndices[6 * g .. 6 * g + 6]
  }

  /** Group g is row g of the table. */
  lemma GroupTable()
    ensures forall g | 0 <= g < 6 :: Group(g) == CubeGroups[g]
  {
    assert |CubeIndices| == 36;
  }

  /** The axis each group's corners share, the shared coordinate, and the sign of the
      outward direction: group 0 z = 0, 1 z = 1, 2 y = 1, 3 y = 0, 4 x = 0, 5 x = 1. So
      the group the source calls Top is the z = 1 face and Front is the y = 1 face. */
  const FaceAxes: seq<nat> := [2, 2, 1, 1, 0, 0]
  const FaceSides: seq<real> := [0.0, 1.0, 1.0, 0.0, 0.0, 1.0]
  const FaceSigns: seq<real> := [-1.0, 1.0, 1.0, -1.0, -1.0, 1.0]

  /** Corner c lies on the plane of face group g. */
  predicate OnFace(c: int, g: nat)
    requires g < 6
  {
    0 <= c < 8 && Coord(Corners[c], FaceAxes[g]) == FaceSides[g]
  }

  /** The six groups lie on six different planes of the cube, and each outward sign
      points away from the opposite face. */
  lemma SixFaces()
    ensures forall g1, g2 | 0 <= g1 < g2 < 6 :: FaceAxes[g1] != FaceAxes[g2] || FaceSides[g1] != FaceSides[g2]
    ensures forall g | 0 <= g < 6 :: FaceSigns[g] == 2.0 * FaceSides[g] - 1.0
  {
  }

  /** A run a, b, c, c, d, a of four different corners keeps a, b, c, d. */
  lemma DedupQuad(a: int, b: int, c: int, d: int)
    requires a != b && a != c && a != d && b != c && b != d && c != d
    ensures Dedup([a, b, c, c, d, a]) == [a, b, c, d]
  {
    var s := [a, b, c, c, d, a];
    assert s[..1] == [a] && [a][..0] == [];
    assert s[..2] == [a, b] && [a, b][..1] == [a];
    assert s[..3] == [a, b, c] && [a, b, c][..2] == [a, b];
    assert s[..4] == [a, b, c, c] && [a, b, c, c][..3] == [a, b, c];
    assert s[..5] == [a, b, c, c, d] && [a, b, c, c, d][..4] == [a, b, c, c];
    assert Dedup([a]) == [a];
    assert Dedup([a, b]) == [a, b];
    assert Dedup([a, b, c]) == [a, b, c];
    assert Dedup([a, b, c, c]) == [a, b, c];
    assert Dedup([a, b, c, c, d]) == [a, b, c, d];
  }

  /** Every entry of row g names a corner on face g. */
  lemma RowOnFace(g: nat)
    requires g < 6
    ensures forall j | 0 <= j < 6 :: OnFace(CubeGroups[g][j], g)
  {
  }

  /** Each group names exactly 4 distinct corners, and they are exactly the corners of
      its face. */
  lemma FaceGroup(g: nat)
    requires g < 6
    ensures |Dedup(Group(g))| == 4
    ensures forall c | c in Group(g) :: OnFace(c, g)
    ensures forall c | 0 <= c < 8 && OnFace(c, g) :: c in Group(g)
  {
    GroupTable();
    RowOnFace(g);
    if g == 0 { DedupQuad(2, 1, 0, 3); }
    else if g == 1 { DedupQuad(7, 4, 5, 6); }
    else if g == 2 { DedupQuad(6, 2, 3, 7); }
    else if g == 3 { DedupQuad(1, 5, 4, 0); }
    else if g == 4 { DedupQuad(3, 0, 4, 7); }
    else { DedupQuad(2, 6, 5, 1); }
  }

  /** How many of the first n groups contain corner c. */
  function FaceCount(c: int, n: nat): nat
    requires n <= 6
  {
    if n == 0 then 0 else FaceCount(c, n - 1) + (if c in Group(n - 1) then 1 else 0)
  }

  /** Every corner belongs to exactly 3 face groups, one per axis. */
  lemma CornerOnThreeFaces(c: int)
    requires 0 <= c < 8
    ensures FaceCount(c, 6) == 3
  {
    forall g | 0 <= g < 6 ensures (c in Group(g)) == OnFace(c, g) {
      FaceGroup(g);
    }
    assert FaceCount(c, 6) == FaceCount(c, 4) + (if c in Group(4) then 1 else 0) + (if c in Group(5) then 1 else 0);
    assert FaceCount(c, 4) == FaceCount(c, 2) + (if c in Group(2) then 1 else 0) + (if c in Group(3) then 1 else 0);
    assert FaceCount(c, 2) == (if c in Group(0) then 1 else 0) + (if c in Group(1) then 1 else 0);
    CornerCoordinates();
  }

  /** (v2 - v1) x (v3 - v1) for triangle t, before nor(). */
  function TriangleNormal(ps: seq<Vec3>, idx: seq<int>, t: nat): Vec3
    requires TriangleIn(idx, |ps|, t)
  {
    Cross(Sub(ps[idx[3 * t + 1]], ps[idx[3 * t]]), Sub(ps[idx[3 * t + 2]], ps[idx[3 * t]]))
  }

  /** A triangle whose three corners share coordinate `axis` has a normal along that axis. */
  lemma PlanarNormal(ps: seq<Vec3>, idx: seq<int>, t: nat, axis: nat)
    requires TriangleIn(idx, |ps|, t) && axis < 3
    requires Coord(ps[idx[3 * t + 1]], axis) == Coord(ps[idx[3 * t]], axis)
    requires Coord(ps[idx[3 * t + 2]], axis) == Coord(ps[idx[3 * t]], axis)
    ensures TriangleNormal(ps, idx, t) == AxisVector(axis, Coord(TriangleNormal(ps, idx, t), axis))
  {
    var v1 := ps[idx[3 * t]];
    var d1, d2 := Sub(ps[idx[3 * t + 1]], v1), Sub(ps[idx[3 * t + 2]], v1);
    assert Coord(d1, axis) == 0.0 && Coord(d2, axis) == 0.0;
  }

  /** Triangle s of group g reads corners a, b, c from row g of the table. */
  lemma CubeTriangle(g: nat, s: nat, a: int, b: int, c: int)
    requires g < 6 && s < 2
    requires CubeGroups[g][3 * s] == a && CubeGroups[g][3 * s + 1] == b && CubeGroups[g][3 * s + 2] == c
    ensures 3 * (2 * g + s) + 3 <= |CubeIndices|
    ensures CubeIndices[3 * (2 * g + s)] == a && CubeIndices[3 * (2 * g + s) + 1] == b
    ensures CubeIndices[3 * (2 * g + s) + 2] == c
  {
    GroupTable();
    assert Group(g) == CubeGroups[g];
    var t := 2 * g + s;
    assert CubeIndices[3 * t] == Group(g)[3 * s];
    assert CubeIndices[3 * t + 1] == Group(g)[3 * s + 1];
    assert CubeIndices[3 * t + 2] == Group(g)[3 * s + 2];
  }

  /** Triangle t lies on face t / 2, so its normal points along that face's axis. */
  lemma FacePlanar(t: nat)
    requires t < 12
    ensures TriangleIn(CubeIndices, |Corners|, t)
    ensures TriangleNormal(Corners, CubeIndices, t) ==
      AxisVector(FaceAxes[t / 2], Coord(TriangleNormal(Corners, CubeIndices, t), FaceAxes[t / 2]))
  {
    var g, s := t / 2, t % 2;
    CubeTriangle(g, s, CubeGroups[g][3 * s], CubeGroups[g][3 * s + 1], CubeGroups[g][3 * s + 2]);
    RowOnFace(g);
    assert OnFace(CubeGroups[g][3 * s], g) && OnFace(CubeGroups[g][3 * s + 1], g) && OnFace(CubeGroups[g][3 * s + 2], g);
    PlanarNormal(Corners, CubeIndices, t, FaceAxes[g]);
  }

  /** The outward unit normal of face group g. */
  function FaceNormal(g: nat): (n: Vec3)
    requires g < 6
    ensures Dot(n, n) == 1.0
  {
    AxisVector(FaceAxes[g], FaceSigns[g])
  }

  /** The sign, along its face's axis, of triangle t's normal; one lemma per triangle,
      each reading the triangle's three corners pa, pb, pc. */
  lemma Orientation0(t: nat, pa: Vec3, pb: Vec3, pc: Vec3)
    requires t == 0 && pa == Vec3(1.0, 1.0, 0.0) && pb == Vec3(1.0, 0.0, 0.0) && pc == Vec3(0.0, 0.0, 0.0)
    ensures TriangleIn(CubeIndices, |Corners|, t)
    ensures Coord(TriangleNormal(Corners, CubeIndices, t), FaceAxes[t / 2]) == FaceSigns[t / 2]
  {
    CubeTriangle(0, 0, 2, 1, 0);
    assert Corners[2] == pa && Corners[1] == pb && Corners[0] == pc;
  }

  lemma Orientation1(t: nat, pa: Vec3, pb: Vec3, pc: Vec3)
    requires t == 1 && pa == Vec3(0.0, 0.0, 0.0) && pb == Vec3(0.0, 1.0, 0.0) && pc == Vec3(1.0, 1.0, 0.0)
    ensures TriangleIn(CubeIndices, |Corners|, t)
    ensures Coord(TriangleNormal(Corners, CubeIndices, t), FaceAxes[t / 2]) == FaceSigns[t / 2]
  {
    CubeTriangle(0, 1, 0, 3, 2);
    assert Corners[0] == pa && Corners[3] == pb && Corners[2] == pc;
  }

  lemma Orientation2(t: nat, pa: Vec3, pb: Vec3, pc: Vec3)
    requires t == 2 && pa == Vec3(0.0, 1.0, 1.0) && pb == Vec3(0.0, 0.0, 1.0) && pc == Vec3(1.0, 0.0, 1.0)
    ensures TriangleIn(CubeIndices, |Corners|, t)
    ensures Coord(TriangleNormal(Corners, CubeIndices, t), FaceAxes[t / 2]) == FaceSigns[t / 2]
  {
    CubeTriangle(1, 0, 7, 4, 5);
    assert Corners[7] == pa && Corners[4] == pb && Corners[5] == pc;
  }

  lemma Orientation3(t: nat, pa: Vec3, pb: Vec3, pc: Vec3)
    requires t == 3 && pa == Vec3(1.0, 0.0, 1.0) && pb == Vec3(1.0, 1.0, 1.0) && pc == Vec3(0.0, 1.0, 1.0)
    ensures TriangleIn(CubeIndices, |Corners|, t)
    ensures Coord(TriangleNormal(Corners, CubeIndices, t), FaceAxes[t / 2]) == FaceSigns[t / 2]
  {
    CubeTriangle(1, 1, 5, 6, 7);
    assert Corners[5] == pa && Corners[6] == pb && Corners[7] == pc;
  }

  lemma Orientation4(t: nat, pa: Vec3, pb: Vec3, pc: Vec3)
    requires t == 4 && pa == Vec3(1.0, 1.0, 1.0) && pb == Vec3(1.0, 1.0, 0.0) && pc == Vec3(0.0, 1.0, 0.0)
    ensures TriangleIn(CubeIndices, |Corners|, t)
    ensures Coord(TriangleNormal(Corners, CubeIndices, t), FaceAxes[t / 2]) == FaceSigns[t / 2]
  {
    CubeTriangle(2, 0, 6, 2, 3);
    assert Corners[6] == pa && Corners[2] == pb && Corners[3] == pc;
  }

  lemma Orientation5(t: nat, pa: Vec3, pb: Vec3, pc: Vec3)
    requires t == 5 && pa == Vec3(0.0, 1.0, 0.0) && pb == Vec3(0.0, 1.0, 1.0) && pc == Vec3(1.0, 1.0, 1.0)
    ensures TriangleIn(CubeIndices, |Corners|, t)
    ensures Coord(TriangleNormal(Corners, CubeIndices, t), FaceAxes[t / 2]) == FaceSigns[t / 2]
  {
    CubeTriangle(2, 1, 3, 7, 6);
    assert Corners[3] == pa && Corners[7] == pb && Corners[6] == pc;
  }

  lemma Orientation6(t: nat, pa: Vec3, pb: Vec3, pc: Vec3)
    requires t == 6 && pa == Vec3(1.0, 0.0, 0.0) && pb == Vec3(1.0, 0.0, 1.0) && pc == Vec3(0.0, 0.0, 1.0)
    ensures TriangleIn(CubeIndices, |Corners|, t)
    ensures Coord(TriangleNormal(Corners, CubeIndices, t), FaceAxes[t / 2]) == FaceSigns[t / 2]
  {
    CubeTriangle(3, 0, 1, 5, 4);
    assert Corners[1] == pa && Corners[5] == pb && Corners[4] == pc;
  }

  lemma Orientation7(t: nat, pa: Vec3, pb: Vec3, pc: Vec3)
    requires t == 7 && pa == Vec3(0.0, 0.0, 1.0) && pb == Vec3(0.0, 0.0, 0.0) && pc == Vec3(1.0, 0.0, 0.0)
    ensures TriangleIn(CubeIndices, |Corners|, t)
    ensures Coord(TriangleNormal(Corners, CubeIndices, t), FaceAxes[t / 2]) == FaceSigns[t / 2]
  {
    CubeTriangle(3, 1, 4, 0, 1);
    assert Corners[4] == pa && Corners[0] == pb && Corners[1] == pc;
  }

  lemma Orientation8(t: nat, pa: Vec3, pb: Vec3, pc: Vec3)
    requires t == 8 && pa == Vec3(0.0, 1.0, 0.0) && pb == Vec3(0.0, 0.0, 0.0) && pc == Vec3(0.0, 0.0, 1.0)
    ensures TriangleIn(CubeIndices, |Corners|, t)
    ensures Coord(TriangleNormal(Corners, CubeIndices, t), FaceAxes[t / 2]) == FaceSigns[t / 2]
  {
    CubeTriangle(4, 0, 3, 0, 4);
    assert Corners[3] == pa && Corners[0] == pb && Corners[4] == pc;
  }

  lemma Orientation9(t: nat, pa: Vec3, pb: Vec3, pc: Vec3)
    requires t == 9 && pa == Vec3(0.0, 0.0, 1.0) && pb == Vec3(0.0, 1.0, 1.0) && pc == Vec3(0.0, 1.0, 0.0)
    ensures TriangleIn(CubeIndices, |Corners|, t)
    ensures Coord(TriangleNormal(Corners, CubeIndices, t), FaceAxes[t / 2]) == FaceSigns[t / 2]
  {
    CubeTriangle(4, 1, 4, 7, 3);
    assert Corners[4] == pa && Corners[7] == pb && Corners[3] == pc;
  }

  lemma Orientation10(t: nat, pa: Vec3, pb: Vec3, pc: Vec3)
    requires t == 10 && pa == Vec3(1.0, 1.0, 0.0) && pb == Vec3(1.0, 1.0, 1.0) && pc == Vec3(1.0, 0.0, 1.0)
    ensures TriangleIn(CubeIndices, |Corners|, t)
    ensures Coord(TriangleNormal(Corners, CubeIndices, t), FaceAxes[t / 2]) == FaceSigns[t / 2]
  {
    CubeTriangle(5, 0, 2, 6, 5);
    assert Corners[2] == pa && Corners[6] == pb && Corners[5] == pc;
  }

  lemma Orientation11(t: nat, pa: Vec3, pb: Vec3, pc: Vec3)
    requires t == 11 && pa == Vec3(1.0, 0.0, 1.0) && pb == Vec3(1.0, 0.0, 0.0) && pc == Vec3(1.0, 1.0, 0.0)
    ensures TriangleIn(CubeIndices, |Corners|, t)
    ensures Coord(TriangleNormal(Corners, CubeIndices, t), FaceAxes[t / 2]) == FaceSigns[t / 2]
  {
    CubeTriangle(5, 1, 5, 1, 2);
    assert Corners[5] == pa && Corners[1] == pb && Corners[2] == pc;
  }

  /** Every triangle's normal points along its face's axis with the face's outward sign. */
  lemma Orientation(t: nat)
    requires t < 12
    ensures TriangleIn(CubeIndices, |Corners|, t)
    ensures Coord(TriangleNormal(Corners, CubeIndices, t), FaceAxes[t / 2]) == FaceSigns[t / 2]
  {
    if t == 0 { Orientation0(t, Vec3(1.0, 1.0, 0.0), Vec3(1.0, 0.0, 0.0), Vec3(0.0, 0.0, 0.0)); }
    else if t == 1 { Orientation1(t, Vec3(0.0, 0.0, 0.0), Vec3(0.0, 1.0, 0.0), Vec3(1.0, 1.0, 0.0)); }
    else if t == 2 { Orientation2(t, Vec3(0.0, 1.0, 1.0), Vec3(0.0, 0.0, 1.0), Vec3(1.0, 0.0, 1.0)); }
    else if t == 3 { Orientation3(t, Vec3(1.0, 0.0, 1.0), Vec3(1.0, 1.0, 1.0), Vec3(0.0, 1.0, 1.0)); }
    else if t == 4 { Orientation4(t, Vec3(1.0, 1.0, 1.0), Vec3(1.0, 1.0, 0.0), Vec3(0.0, 1.0, 0.0)); }
    else if t == 5 { Orientation5(t, Vec3(0.0, 1.0, 0.0), Vec3(0.0, 1.0, 1.0), Vec3(1.0, 1.0, 1.0)); }
    else if t == 6 { Orientation6(t, Vec3(1.0, 0.0, 0.0), Vec3(1.0, 0.0, 1.0), Vec3(0.0, 0.0, 1.0)); }
    else if t == 7 { Orientation7(t, Vec3(0.0, 0.0, 1.0), Vec3(0.0, 0.0, 0.0), Vec3(1.0, 0.0, 0.0)); }
    else if t == 8 { Orientation8(t, Vec3(0.0, 1.0, 0.0), Vec3(0.0, 0.0, 0.0), Vec3(0.0, 0.0, 1.0)); }
    else if t == 9 { Orientation9(t, Vec3(0.0, 0.0, 1.0), Vec3(0.0, 1.0, 1.0), Vec3(0.0, 1.0, 0.0)); }
    else if t == 10 { Orientation10(t, Vec3(1.0, 1.0, 0.0), Vec3(1.0, 1.0, 1.0), Vec3(1.0, 0.0, 1.0)); }
    else { Orientation11(t, Vec3(1.0, 0.0, 1.0), Vec3(1.0, 0.0, 0.0), Vec3(1.0, 1.0, 0.0)); }
  }

  /** On the canonical corners every triangle's cross product is the outward unit axis
      normal of its face, so the two triangles of a group agree, and nor() leaves it as
      it is. */
  lemma FaceNormalsOutward()
    ensures forall t | 0 <= t < 12 ::
      TriangleIn(CubeIndices, |Corners|, t) && TriangleNormal(Corners, CubeIndices, t) == FaceNormal(t / 2)
  {
    forall t | 0 <= t < 12
      ensures TriangleIn(CubeIndices, |Corners|, t) && TriangleNormal(Corners, CubeIndices, t) == FaceNormal(t / 2)
    {
      Orientation(t);
      FacePlanar(t);
    }
  }

  /** `v + n` when `b` holds, `v` otherwise: one `vertexNormals[i].add(normal)` of the
      loop as seen from a single corner. */
  function AddIf(v: Vec3, b: bool, n: Vec3): Vec3 {
    if b then Add(v, n) else v
  }

  /** Corner c's sum after the first n triangles: each triangle adds its normal once for
      each of its three index slots that names c. */
  function NormalSum(ps: seq<Vec3>, idx: seq<int>, c: int, n: nat): Vec3
    requires 3 * n <= |idx| && IndicesIn(idx, |ps|)
  {
    if n == 0 then Zero
    else
      var t := n - 1;
      var normal := TriangleNormal(ps, idx, t);
      AddIf(AddIf(AddIf(NormalSum(ps, idx, c, t), idx[3 * t] == c, normal), idx[3 * t + 1] == c, normal),
            idx[3 * t + 2] == c, normal)
  }

  /** Every corner's sum after the first n triangles. */
  function Sums(ps: seq<Vec3>, idx: seq<int>, n: nat): (ns: seq<Vec3>)
    requires 3 * n <= |idx| && IndicesIn(idx, |ps|)
    ensures |ns| == |ps|
  {
    seq(|ps|, c requires 0 <= c < |ps| => NormalSum(ps, idx, c, n))
  }

  /** The accumulated normal of every corner. */
  function VertexNormals(ps: seq<Vec3>, idx: seq<int>): (ns: seq<Vec3>)
    requires |idx| % 3 == 0 && IndicesIn(idx, |ps|)
    ensures |ns| == |ps|
    ensures forall c | 0 <= c < |ps| :: ns[c] == NormalSum(ps, idx, c, |idx| / 3)
  {
    Sums(ps, idx, |idx| / 3)
  }

  /** A corner that no triangle names keeps a zero normal sum. */
  lemma {:induction false} UnusedCornerZero(ps: seq<Vec3>, idx: seq<int>, c: int, n: nat)
    requires 3 * n <= |idx| && IndicesIn(idx, |ps|)
    requires forall k | 0 <= k < 3 * n :: idx[k] != c
    ensures NormalSum(ps, idx, c, n) == Zero
  {
    if n > 0 {
      UnusedCornerZero(ps, idx, c, n - 1);
      assert idx[3 * (n - 1)] != c && idx[3 * (n - 1) + 1] != c && idx[3 * (n - 1) + 2] != c;
    }
  }

  /** A triangle with three different corners adds its normal exactly once to each of
      them and leaves every other corner's sum as it was. */
  lemma TriangleAddsOnce(ps: seq<Vec3>, idx: seq<int>, t: nat, c: int)
    requires 3 * t + 3 <= |idx| && IndicesIn(idx, |ps|)
    requires idx[3 * t] != idx[3 * t + 1] && idx[3 * t] != idx[3 * t + 2] && idx[3 * t + 1] != idx[3 * t + 2]
    ensures NormalSum(ps, idx, c, t + 1) ==
      if c in idx[3 * t .. 3 * t + 3] then Add(NormalSum(ps, idx, c, t), TriangleNormal(ps, idx, t))
      else NormalSum(ps, idx, c, t)
  {
    assert idx[3 * t .. 3 * t + 3] == [idx[3 * t], idx[3 * t + 1], idx[3 * t + 2]];
  }

  /** Every triangle of the cube names three different corners, so on the cube each
      triangle adds its normal exactly once to each of its corners. */
  lemma CubeTrianglesProper()
    ensures |CubeIndices| == 36
    ensures forall t | 0 <= t < 12 ::
      CubeIndices[3 * t] != CubeIndices[3 * t + 1] && CubeIndices[3 * t] != CubeIndices[3 * t + 2] &&
      CubeIndices[3 * t + 1] != CubeIndices[3 * t + 2]
  {
  }

  /** vertexNormals[k].add(n): adds n to slot k in place. */
  method AddTo(a: array<Vec3>, k: int, n: Vec3)
    requires 0 <= k < a.Length
    modifies a
    ensures a[..] == old(a[..])[k := Add(old(a[k]), n)]
  {
    a[k] := Add(a[k], n);
  }

  /** The normal loop: for every triangle, add its normal to each of its three corners. */
  method AccumulateNormals(ps: seq<Vec3>, idx: seq<int>) returns (normals: seq<Vec3>)
    requires |idx| % 3 == 0 && IndicesIn(idx, |ps|)
    ensures normals == VertexNormals(ps, idx)
  {
    var vertexNormals := new Vec3[|ps|](_ => Zero);
    assert vertexNormals[..] == Sums(ps, idx, 0);
    var i := 0;
    while i < |idx|
      invariant 0 <= i <= |idx| && i % 3 == 0
      invariant vertexNormals[..] == Sums(ps, idx, i / 3)
    {
      AddTriangle(vertexNormals, ps, idx, i);
      i := i + 3;
    }
    normals := vertexNormals[..];
  }

  /** The loop body for the triangle at indices i, i + 1, i + 2: its normal
      (v2 - v1) x (v3 - v1) is added to each of its three corners. */
  method AddTriangle(vertexNormals: array<Vec3>, ps: seq<Vec3>, idx: seq<int>, i: nat)
    requires i % 3 == 0 && i + 3 <= |idx| && IndicesIn(idx, |ps|)
    requires vertexNormals[..] == Sums(ps, idx, i / 3)
    modifies vertexNormals
    ensures vertexNormals[..] == Sums(ps, idx, i / 3 + 1)
  {
    ghost var t := i / 3;
    var v1 := ps[idx[i]];
    var v2 := ps[idx[i + 1]];
    var v3 := ps[idx[i + 2]];
    var normal := Cross(Sub(v2, v1), Sub(v3, v1));
    assert normal == TriangleNormal(ps, idx, t);
    ghost var s0 := vertexNormals[..];
    AddTo(vertexNormals, idx[i], normal);
    ghost var s1 := vertexNormals[..];
    AddTo(vertexNormals, idx[i + 1], normal);
    ghost var s2 := vertexNormals[..];
    AddTo(vertexNormals, idx[i + 2], normal);
    TriangleStep(ps, idx, t, normal, s0, s1, s2, vertexNormals[..]);
  }

  /** One pass of the loop body takes the sums after t triangles to the sums after t + 1. */
  lemma TriangleStep(ps: seq<Vec3>, idx: seq<int>, t: nat, normal: Vec3, s0: seq<Vec3>, s1: seq<Vec3>, s2: seq<Vec3>, s3: seq<Vec3>)
    requires 3 * t + 3 <= |idx| && IndicesIn(idx, |ps|) && normal == TriangleNormal(ps, idx, t)
    requires s0 == Sums(ps, idx, t)
    requires s1 == s0[idx[3 * t] := Add(s0[idx[3 * t]], normal)]
    requires s2 == s1[idx[3 * t + 1] := Add(s1[idx[3 * t + 1]], normal)]
    requires s3 == s2[idx[3 * t + 2] := Add(s2[idx[3 * t + 2]], normal)]
    ensures s3 == Sums(ps, idx, t + 1)
  {
    forall c | 0 <= c < |ps| ensures s3[c] == NormalSum(ps, idx, c, t + 1) {
      AddAt(s0, idx[3 * t], normal, c);
      AddAt(s1, idx[3 * t + 1], normal, c);
      AddAt(s2, idx[3 * t + 2], normal, c);
      NormalSumStep(ps, idx, c, t, 3 * t, normal);
    }
  }

  /** Adding n to slot k changes slot c exactly when c is k. */
  lemma AddAt(s: seq<Vec3>, k: int, n: Vec3, c: int)
    requires 0 <= k < |s| && 0 <= c < |s|
    ensures s[k := Add(s[k], n)][c] == AddIf(s[c], k == c, n)
  {
  }

  /** Unfolds NormalSum by triangle t, which starts at index i and has the given normal. */
  lemma NormalSumStep(ps: seq<Vec3>, idx: seq<int>, c: int, t: nat, i: nat, normal: Vec3)
    requires i == 3 * t && i + 3 <= |idx| && IndicesIn(idx, |ps|)
    requires normal == TriangleNormal(ps, idx, t)
    ensures NormalSum(ps, idx, c, t + 1) ==
      AddIf(AddIf(AddIf(NormalSum(ps, idx, c, t), idx[i] == c, normal), idx[i + 1] == c, normal), idx[i + 2] == c, normal)
  {
  }

  /** The flattening loop's result: vertex i's position, then its normal. */
  function Interleaved(ps: seq<Vec3>, ns: seq<Vec3>): (r: seq<real>)
    requires |ps| == |ns|
    ensures |r| == Stride * |ps|
    decreases |ps|
  {
    if ps == [] then []
    else
      var n := |ps| - 1;
      Interleaved(ps[..n], ns[..n]) + [ps[n].x, ps[n].y, ps[n].z, ns[n].x, ns[n].y, ns[n].z]
  }

  /** Vertex i's position sits at 6i .. 6i + 2 and its normal at 6i + 3 .. 6i + 5. */
  lemma {:induction false} InterleavedAt(ps: seq<Vec3>, ns: seq<Vec3>, i: nat)
    requires |ps| == |ns| && i < |ps|
    ensures PositionAt(Interleaved(ps, ns), i) == ps[i]
    ensures NormalAt(Interleaved(ps, ns), i) == ns[i]
    decreases |ps|
  {
    var n := |ps| - 1;
    if i < n {
      InterleavedAt(ps[..n], ns[..n], i);
      assert ps[..n][i] == ps[i] && ns[..n][i] == ns[i];
    }
  }

  /** Reading the positions back out of the buffer gives the positions put in. */
  lemma PositionsOfInterleaved(ps: seq<Vec3>, ns: seq<Vec3>)
    requires |ps| == |ns|
    ensures Positions(Interleaved(ps, ns), |ps|) == ps
  {
    forall i | 0 <= i < |ps| ensures Positions(Interleaved(ps, ns), |ps|)[i] == ps[i] {
      InterleavedAt(ps, ns, i);
    }
  }

  /** Writes vertex i's position at i * 6 .. i * 6 + 2 and its normal at
      i * 6 + 3 .. i * 6 + 5, for every vertex. */
  method WriteVertexData(data: array<real>, ps: seq<Vec3>, ns: seq<Vec3>)
    requires |ps| == |ns| && data.Length == Stride * |ps|
    modifies data
    ensures data[..] == Interleaved(ps, ns)
  {
    for i := 0 to |ps|
      invariant data[..Stride * i] == Interleaved(ps[..i], ns[..i])
    {
      WriteVertex(data, i, ps[i], ns[i]);
      assert ps[..i + 1][..i] == ps[..i] && ns[..i + 1][..i] == ns[..i];
    }
    assert ps[..|ps|] == ps && ns[..|ns|] == ns;
    assert data[..] == data[..Stride * |ps|];
  }

  /** One pass of the flattening loop: vertex i's six floats, leaving the floats before
      them as they were. */
  method WriteVertex(data: array<real>, i: nat, p: Vec3, n: Vec3)
    requires Stride * i + Stride <= data.Length
    modifies data
    ensures data[..Stride * i + Stride] == old(data[..Stride * i]) + [p.x, p.y, p.z, n.x, n.y, n.z]
  {
    var base := i * Stride;
    data[base + PosOffset] := p.x;
    data[base + PosOffset + 1] := p.y;
    data[base + PosOffset + 2] := p.z;
    data[base + NormalOffset] := n.x;
    data[base + NormalOffset + 1] := n.y;
    data[base + NormalOffset + 2] := n.z;
  }

  /** The pristine cube buffer. */
  function CubeVertexData(): (r: seq<real>)
    ensures |r| == 48
  {
    IndexTable();
    Interleaved(Corners, VertexNormals(Corners, CubeIndices))
  }

  /** The cube buffer has 48 floats; corner i's position is Corners[i] and its normal the
      accumulated sum of the normals of the triangles naming it. */
  lemma CubeBuffer(i: nat)
    requires i < 8
    ensures IndicesIn(CubeIndices, |Corners|)
    ensures PositionAt(CubeVertexData(), i) == Corners[i]
    ensures NormalAt(CubeVertexData(), i) == NormalSum(Corners, CubeIndices, i, 12)
  {
    IndexTable();
    InterleavedAt(Corners, VertexNormals(Corners, CubeIndices), i);
  }

  /** createIndexedCubeModel: a new mesh holding the cube buffer and the index table. */
  method CreateIndexedCubeModel() returns (mesh: Mesh)
    ensures fresh(mesh) && fresh(mesh.vertices)
    ensures mesh.Valid() && mesh.numVertices == 8 && mesh.indices == CubeIndices
    ensures mesh.vertices[..] == CubeVertexData()
  {
    IndexTable();
    var vertexNormals := AccumulateNormals(Corners, CubeIndices);
    var vertexData := new real[|Corners| * 6];
    WriteVertexData(vertexData, Corners, vertexNormals);
    mesh := new Mesh(|Corners|, vertexData[..], CubeIndices);
  }
}
