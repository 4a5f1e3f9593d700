/** Moving the selected vertices of a block, as moveSelectedFace does in both face
    handlers: one local displacement is added, in place, to the position of every
    selected vertex of the mesh's buffer. */
module FaceEdit {
  import opened Geometry
  import opened Scene
  import opened Unique

  /** Every index names a whole vertex of a buffer of `len` floats. */
  predicate IndicesFit(idxs: seq<int>, len: int) {
    forall k | 0 <= k < |idxs| :: 0 <= idxs[k] && Stride * idxs[k] + Stride <= len
  }

  /** Slot k holds a position component of its vertex. */
  predicate PositionSlot(k: nat) {
    PosOffset <= k % Stride < PosOffset + 3
  }

  /** The buffer after adding d to the position of every listed vertex once. */
  function Moved(data: seq<real>, idxs: seq<int>, d: Vec3): (r: seq<real>)
    ensures |r| == |data|
  {
    seq(|data|, k requires 0 <= k < |data| =>
      if PositionSlot(k) && k / Stride in idxs then data[k] + Coord(d, k % Stride - PosOffset) else data[k])
  }

  /** Slot k belongs to vertex c exactly when it lies in c's six floats. */
  lemma SlotOfVertex(k: nat, c: nat)
    ensures k / Stride == c <==> Stride * c <= k < Stride * c + Stride
    ensures k / Stride == c ==> k % Stride == k - Stride * c
  {
  }

  /** Moving one more (not yet listed) vertex adds d to its three position slots. */
  lemma MovedStep(data: seq<real>, idxs: seq<int>, c: int, d: Vec3)
    requires 0 <= c && Stride * c + Stride <= |data| && c !in idxs
    ensures var m, b := Moved(data, idxs, d), Stride * c + PosOffset;
      Moved(data, idxs + [c], d) == m[b := m[b] + d.x][b + 1 := m[b + 1] + d.y][b + 2 := m[b + 2] + d.z]
  {
    var m, b := Moved(data, idxs, d), Stride * c + PosOffset;
    var lhs := Moved(data, idxs + [c], d);
    var rhs := m[b := m[b] + d.x][b + 1 := m[b + 1] + d.y][b + 2 := m[b + 2] + d.z];
    forall k | 0 <= k < |data| ensures lhs[k] == rhs[k] {
      SlotOfVertex(k, c);
      SlotOfVertex(b, c);
      SlotOfVertex(b + 1, c);
      SlotOfVertex(b + 2, c);
    }
  }

  /** One iteration of the loop of moveSelectedFace, on values: adding d to the three
      position slots of the next listed vertex turns the buffer moved for the first j
      indices into the buffer moved for the first j + 1. */
  lemma MovedPrefixStep(data: seq<real>, idxs: seq<int>, j: nat, d: Vec3, cur: seq<real>, next: seq<real>)
    requires NoDuplicates(idxs) && IndicesFit(idxs, |data|) && j < |idxs|
    requires cur == Moved(data, idxs[..j], d)
    requires var b := Stride * idxs[j] + PosOffset;
      next == cur[b := cur[b] + d.x][b + 1 := cur[b + 1] + d.y][b + 2 := cur[b + 2] + d.z]
    ensures next == Moved(data, idxs[..j + 1], d)
  {
    assert idxs[j] !in idxs[..j];
    MovedStep(data, idxs[..j], idxs[j], d);
    assert idxs[..j + 1] == idxs[..j] + [idxs[j]];
  }

  /** The three `+=` of one iteration of moveSelectedFace: d is added to the three
      floats starting at b. */
  method AddAt(vertices: array<real>, b: int, d: Vec3)
    requires 0 <= b && b + 3 <= vertices.Length
    modifies vertices
    ensures var cur := old(vertices[..]);
      vertices[..] == cur[b := cur[b] + d.x][b + 1 := cur[b + 1] + d.y][b + 2 := cur[b + 2] + d.z]
  {
    vertices[b] := vertices[b] + d.x;
    vertices[b + 1] := vertices[b + 1] + d.y;
    vertices[b + 2] := vertices[b + 2] + d.z;
  }

  /** The loop of moveSelectedFace: `+=` on the three position slots of every index. */
  method MoveVertices(vertices: array<real>, idxs: seq<int>, d: Vec3)
    requires NoDuplicates(idxs) && IndicesFit(idxs, vertices.Length)
    modifies vertices
    ensures vertices[..] == Moved(old(vertices[..]), idxs, d)
  {
    ghost var base := vertices[..];
    for j := 0 to |idxs|
      invariant vertices[..] == Moved(base, idxs[..j], d)
    {
      var idx := idxs[j];
      var baseIdx := Stride * idx + PosOffset;
      ghost var cur := vertices[..];
      AddAt(vertices, baseIdx, d);
      MovedPrefixStep(base, idxs, j, d, cur, vertices[..]);
    }
    assert idxs[..|idxs|] == idxs;
  }

  /** A listed vertex moves by d, every other vertex stays, and no normal changes. */
  lemma MovedVertex(data: seq<real>, idxs: seq<int>, d: Vec3, i: nat)
    requires Stride * i + Stride <= |data|
    ensures PositionAt(Moved(data, idxs, d), i) == if i in idxs then Add(PositionAt(data, i), d) else PositionAt(data, i)
    ensures NormalAt(Moved(data, idxs, d), i) == NormalAt(data, i)
  {
    var b := Stride * i;
    SlotOfVertex(b, i);
    SlotOfVertex(b + 1, i);
    SlotOfVertex(b + 2, i);
    SlotOfVertex(b + 3, i);
    SlotOfVertex(b + 4, i);
    SlotOfVertex(b + 5, i);
  }

  /** The world move carried into local space and back: adding the local direction to a
      local point moves its world image by exactly the world move. */
  lemma WorldMove(t: Transform, p: Vec3, d: Vec3)
    requires Invertible(t)
    ensures ToWorld(t, Add(p, LocalDirection(t, d))) == Add(ToWorld(t, p), d)
  {
    var r := LocalDirection(t, d);
    MulDistributes(t.scale, p, r);
    assert Mul(t.scale, r) == d;
  }

  /** A componentwise product distributes over a sum. */
  lemma MulDistributes(a: Vec3, p: Vec3, r: Vec3)
    ensures Mul(a, Add(p, r)) == Add(Mul(a, p), Mul(a, r))
  {
    assert a.x * (p.x + r.x) == a.x * p.x + a.x * r.x;
    assert a.y * (p.y + r.y) == a.y * p.y + a.y * r.y;
    assert a.z * (p.z + r.z) == a.z * p.z + a.z * r.z;
  }

  /** A node transform without scale passes a displacement through unchanged. */
  lemma NodeMove(node: Transform, p: Vec3, r: Vec3)
    requires TranslationOnly(node)
    ensures ToWorld(node, Add(p, r)) == Add(ToWorld(node, p), r)
  {
  }

  /** Moving the selected vertices by the local image of a world move displaces each
      of them in the world by exactly that move, and leaves every other vertex where
      it was. */
  lemma MovedWorld(node: Transform, t: Transform, data: seq<real>, idxs: seq<int>, d: Vec3, i: nat)
    requires TranslationOnly(node) && Invertible(t) && Stride * i + Stride <= |data|
    ensures WorldPosition(node, t, Moved(data, idxs, LocalDirection(t, d)), i) ==
      if i in idxs then Add(WorldPosition(node, t, data, i), d) else WorldPosition(node, t, data, i)
  {
    var r := LocalDirection(t, d);
    MovedVertex(data, idxs, r, i);
    if i in idxs {
      NodeMove(node, PositionAt(data, i), r);
      WorldMove(t, ToWorld(node, PositionAt(data, i)), d);
    }
  }
}
