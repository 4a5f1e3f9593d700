/** The libGDX objects the editor works on, reduced to what its logic touches: a mesh
    with an interleaved vertex buffer and an index list, a model instance placing
    that mesh in the world, the editor's Block record, the shared block list, the
    scene planes and the picking oracle standing for the camera's ray tests. */
module Scene {
  import opened Geometry

  /** Floats per vertex for the attribute list (Position, Normal): vertexSize / 4. */
  const Stride: nat := 6
  /** Float offset of the position attribute inside a vertex. */
  const PosOffset: nat := 0
  /** Float offset of the normal attribute inside a vertex. */
  const NormalOffset: nat := 3

  /** The position of vertex `i` read at i * stride + posOffset (createVertexVector). */
  function PositionAt(data: seq<real>, i: int): Vec3
    requires 0 <= i && Stride * i + Stride <= |data|
  {
    var b := Stride * i + PosOffset;
    Vec3(data[b], data[b + 1], data[b + 2])
  }

  /** The normal of vertex `i`, read at i * stride + normalOffset. */
  function NormalAt(data: seq<real>, i: int): Vec3
    requires 0 <= i && Stride * i + Stride <= |data|
  {
    var b := Stride * i + NormalOffset;
    Vec3(data[b], data[b + 1], data[b + 2])
  }

  /** The positions of the first `n` vertices, in vertex order. */
  function Positions(data: seq<real>, n: nat): (ps: seq<Vec3>)
    requires Stride * n <= |data|
    ensures |ps| == n
  {
    seq(n, i requires 0 <= i < n => PositionAt(data, i))
  }

  /** A libGDX Mesh with the (Position, Normal) layout: a fixed vertex buffer of
      numVertices * Stride floats and an index list. */
  class Mesh {
    const numVertices: nat
    const vertices: array<real>
    const indices: seq<int>

    /** The shape of every mesh the editor builds: the buffer holds numVertices
        vertices, the indices come in quads of two triangles and name vertices. */
    predicate Valid() {
      && numVertices > 0
      && vertices.Length == Stride * numVertices
      && |indices| % 6 == 0
      && forall k | 0 <= k < |indices| :: 0 <= indices[k] < numVertices
    }

    /** Mesh(...) followed by setVertices(data) and setIndices(indices). */
    constructor (numVertices: nat, data: seq<real>, indices: seq<int>)
      requires |data| == Stride * numVertices
      ensures this.numVertices == numVertices && this.indices == indices
      ensures fresh(vertices) && vertices[..] == data
    {
      this.numVertices := numVertices;
      this.indices := indices;
      vertices := new real[|data|](i requires 0 <= i < |data| => data[i]);
    }

    /** getVerticesForMesh: a fresh copy of the vertex buffer. */
    method GetVertices() returns (data: array<real>)
      ensures fresh(data) && data[..] == vertices[..]
    {
      data := new real[vertices.Length](i requires 0 <= i < vertices.Length reads vertices => vertices[i]);
    }

    /** Mesh.setVertices: copies `data` into the vertex buffer. */
    method SetVertices(data: array<real>)
      requires data.Length == vertices.Length
      modifies vertices
      ensures vertices[..] == old(data[..])
    {
      forall i | 0 <= i < vertices.Length {
        vertices[i] := data[i];
      }
    }
  }

  /** The identity matrix: every node transform of the indexed cube model. */
  const Identity := Transform(Zero, One)

  /** A ModelInstance: the model's (single) mesh, the global transform of its first
      node, and the instance's own transform. */
  class Instance {
    const mesh: Mesh
    const node: Transform
    var transform: Transform

    constructor (mesh: Mesh, node: Transform, transform: Transform)
      ensures this.mesh == mesh && this.node == node && this.transform == transform
    {
      this.mesh := mesh;
      this.node := node;
      this.transform := transform;
    }
  }

  /** A placed block: its instance and its world-space bounding box. */
  datatype Block = Block(instance: Instance, bounds: Box)

  /** The `blocks` mutable list that SceneRenderer shares with its handlers. */
  class BlockList {
    var blocks: seq<Block>

    /** Every block's mesh has the editor's mesh shape. */
    predicate Valid()
      reads this
    {
      forall k | 0 <= k < |blocks| :: blocks[k].instance.mesh.Valid()
    }

    constructor ()
      ensures blocks == [] && Valid()
    {
      blocks := [];
    }

    /** MutableList.add */
    method Add(b: Block)
      modifies this
      ensures blocks == old(blocks) + [b]
    {
      blocks := blocks + [b];
    }

    /** MutableList.clear */
    method Clear()
      modifies this
      ensures blocks == []
    {
      blocks := [];
    }
  }

  /** World position of vertex `i` of a buffer: v.mul(node.globalTransform).mul(instance.transform). */
  function WorldPosition(node: Transform, transform: Transform, data: seq<real>, i: int): Vec3
    requires 0 <= i && Stride * i + Stride <= |data|
  {
    ToWorld(transform, ToWorld(node, PositionAt(data, i)))
  }

  /** The node-space positions of every vertex of a buffer holding `n` vertices. */
  function NodePositions(node: Transform, data: seq<real>, n: nat): (ps: seq<Vec3>)
    requires Stride * n <= |data|
    ensures |ps| == n
    ensures forall i | 0 <= i < n :: ps[i] == ToWorld(node, PositionAt(data, i))
  {
    seq(n, i requires 0 <= i < n => ToWorld(node, PositionAt(data, i)))
  }

  /** calculateBoundingBox followed by bounds.mul(transform): the box around the
      node-space vertices, carried to world space by the instance transform. */
  function WorldBounds(node: Transform, transform: Transform, data: seq<real>, n: nat): Box
    requires n > 0 && Stride * n <= |data|
  {
    WorldBox(transform, BoxOf(NodePositions(node, data, n)))
  }

  /** The bounds of an instance as it is now. */
  function InstanceBounds(inst: Instance): Box
    reads inst, inst.mesh.vertices
    requires inst.mesh.Valid()
  {
    WorldBounds(inst.node, inst.transform, inst.mesh.vertices[..], inst.mesh.numVertices)
  }

  /** Every world-space vertex of a block lies in the bounds computed for it. */
  lemma WorldBoundsContainVertices(node: Transform, transform: Transform, data: seq<real>, n: nat, i: nat)
    requires n > 0 && Stride * n <= |data| && i < n
    ensures Contains(WorldBounds(node, transform, data, n), WorldPosition(node, transform, data, i))
  {
    var ps := NodePositions(node, data, n);
    assert Contains(BoxOf(ps), ps[i]);
    WorldBoxContains(transform, BoxOf(ps), ps[i]);
  }

  /** cloneModel's mesh copy: a new mesh with the same vertex count and copies of the
      vertex and index data. */
  method CloneMesh(original: Mesh) returns (copy: Mesh)
    requires original.vertices.Length == Stride * original.numVertices
    ensures fresh(copy) && fresh(copy.vertices)
    ensures copy.numVertices == original.numVertices && copy.indices == original.indices
    ensures copy.vertices[..] == original.vertices[..]
    ensures original.Valid() ==> copy.Valid()
  {
    var vertices := original.GetVertices();
    var indices := original.indices;
    copy := new Mesh(original.numVertices, vertices[..], indices);
  }

  /** A libGDX Plane: the points p with normal . p + d == 0. */
  datatype Plane = Plane(normal: Vec3, d: real)

  predicate OnPlane(pl: Plane, p: Vec3) {
    pl.normal.x * p.x + pl.normal.y * p.y + pl.normal.z * p.z + pl.d == 0.0
  }

  /** A named plane of the scene. */
  datatype ScenePlane = ScenePlane(plane: Plane, name: string)

  const WorldSize: real := 40.0

  /** The six walls of the working volume: floor, ceiling, and the four side walls. */
  const ScenePlanes: seq<ScenePlane> := [
    ScenePlane(Plane(Vec3(0.0, 1.0, 0.0), 0.0), "floor"),
    ScenePlane(Plane(Vec3(0.0, -1.0, 0.0), WorldSize), "ceiling"),
    ScenePlane(Plane(Vec3(1.0, 0.0, 0.0), 0.0), "leftWall"),
    ScenePlane(Plane(Vec3(-1.0, 0.0, 0.0), WorldSize), "rightWall"),
    ScenePlane(Plane(Vec3(0.0, 0.0, 1.0), 0.0), "backWall"),
    ScenePlane(Plane(Vec3(0.0, 0.0, -1.0), WorldSize), "frontWall")
  ]

  /** The ground plane the creation fallback casts against. */
  const GroundPlanes: seq<ScenePlane> := [ScenePlane(Plane(Vec3(0.0, 1.0, 0.0), 0.0), "ground")]

  /** The scene planes bound the cube [0, 40]^3: floor y = 0, ceiling y = 40, walls
      x = 0, x = 40, z = 0 and z = 40, in that order. */
  lemma ScenePlanesBoundWorld(p: Vec3)
    ensures |ScenePlanes| == 6
    ensures OnPlane(ScenePlanes[0].plane, p) <==> p.y == 0.0
    ensures OnPlane(ScenePlanes[1].plane, p) <==> p.y == WorldSize
    ensures OnPlane(ScenePlanes[2].plane, p) <==> p.x == 0.0
    ensures OnPlane(ScenePlanes[3].plane, p) <==> p.x == WorldSize
    ensures OnPlane(ScenePlanes[4].plane, p) <==> p.z == 0.0
    ensures OnPlane(ScenePlanes[5].plane, p) <==> p.z == WorldSize
  {
  }

  /** camera.getPickRay(screenX, screenY) and the libGDX intersection routines on that
      ray, as given results: the ray origin, the hit point with a plane, the hit point
      with a triangle, and whether the ray meets a box. */
  datatype Pick = Pick(
    origin: Vec3,
    plane: Plane -> Option<Vec3>,
    triangle: (Vec3, Vec3, Vec3) -> Option<Vec3>,
    box: Box -> bool)

  /** Flattens positions into x, y, z triples (createVerticesFlatArray). */
  function Flat(vs: seq<Vec3>): (r: seq<real>)
    ensures |r| == 3 * |vs|
    decreases |vs|
  {
    if vs == [] then [] else Flat(vs[..|vs| - 1]) + [vs[|vs| - 1].x, vs[|vs| - 1].y, vs[|vs| - 1].z]
  }

  /** Reads x, y, z triples back into positions. */
  function Unflat(r: seq<real>): seq<Vec3>
    requires |r| % 3 == 0
    decreases |r|
  {
    if r == [] then [] else Unflat(r[..|r| - 3]) + [Vec3(r[|r| - 3], r[|r| - 2], r[|r| - 1])]
  }

  /** Flattening one more point of a list appends its three coordinates. */
  lemma FlatPrefixStep(vs: seq<Vec3>, i: nat)
    requires i < |vs|
    ensures Flat(vs[..i + 1]) == Flat(vs[..i]) + [vs[i].x, vs[i].y, vs[i].z]
  {
    assert vs[..i + 1][..i] == vs[..i];
  }

  /** Element 3i + k of the flat array is component k of vertex i. */

  lemma {:induction false} FlatAt(vs: seq<Vec3>, i: nat, k: nat)
    requires i < |vs| && k < 3
    ensures Flat(vs)[3 * i + k] == Coord(vs[i], k)
    decreases |vs|
  {
    var n := |vs| - 1;
    if i < n {
      FlatAt(vs[..n], i, k);
      assert vs[..n][i] == vs[i];
    }
  }

  /** Un-flattening gives back the vertices. */
  lemma {:induction false} UnflatFlat(vs: seq<Vec3>)
    ensures Unflat(Flat(vs)) == vs
    decreases |vs|
  {
    if vs != [] {
      var n := |vs| - 1;
      var r := Flat(vs);
      assert r[..|r| - 3] == Flat(vs[..n]);
      UnflatFlat(vs[..n]);
      assert vs == vs[..n] + [vs[n]];
    }
  }

  /** createVerticesFlatArray: fills a FloatArray of 3n floats vertex by vertex. */
  method FlattenVertices(vs: seq<Vec3>) returns (flat: seq<real>)
    ensures flat == Flat(vs)
    ensures |flat| == 3 * |vs|
    ensures forall i, k | 0 <= i < |vs| && 0 <= k < 3 :: flat[3 * i + k] == Coord(vs[i], k)
    ensures Unflat(flat) == vs
  {
    var a := new real[3 * |vs|];
    for idx := 0 to |vs|
      invariant forall j | 0 <= j < 3 * idx :: a[j] == Flat(vs[..idx])[j]
    {
      var i := idx * 3;
      a[i] := vs[idx].x;
      a[i + 1] := vs[idx].y;
      a[i + 2] := vs[idx].z;
      assert vs[..idx + 1][..idx] == vs[..idx];
    }
    assert vs[..|vs|] == vs;
    flat := a[..];
    assert flat == Flat(vs);
    forall i, k | 0 <= i < |vs| && 0 <= k < 3 ensures flat[3 * i + k] == Coord(vs[i], k) {
      FlatAt(vs, i, k);
    }
    UnflatFlat(vs);
  }
}
