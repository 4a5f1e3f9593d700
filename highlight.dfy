/** Face highlighting of the first face-selection mode (HighlightHandler): a press picks
    the nearest block whose bounds the ray meets and, when the ray hits one of its
    triangles, shows the face holding the nearest such triangle as a red, position-only
    mesh of six vertices drawn with the identity transform. */
module Highlight {
  import opened Geometry
  import opened Selection
  import opened Scene
  import opened Picking

  /** setIndices(0, 1, 2, 3, 4, 5): the two triangles of the face, in slot order. */
  const RectangleIndices: seq<int> := [0, 1, 2, 3, 4, 5]

  /** The highlight instance: its position-only buffer (three floats per vertex), its
      index list and its transform. */
  datatype RectangleHighlight = RectangleHighlight(vertices: seq<real>, indices: seq<int>, transform: Transform)

  /** Vertex i of the position-only buffer. */
  function HighlightVertex(h: RectangleHighlight, i: int): Vec3
    requires 0 <= i && 3 * i + 3 <= |h.vertices|
  {
    Vec3(h.vertices[3 * i], h.vertices[3 * i + 1], h.vertices[3 * i + 2])
  }

  /** The highlight shows exactly the points vs, in order, with the two-triangle index
      list and no transform of its own. */
  predicate Draws(h: RectangleHighlight, vs: seq<Vec3>) {
    && |h.vertices| == 3 * |vs|
    && (forall i | 0 <= i < |vs| :: HighlightVertex(h, i) == vs[i])
    && h.indices == RectangleIndices
    && h.transform == Identity
  }

  /** createRectangleHighlight: the points flattened into a Mesh of at most six
      vertices, indexed 0 .. 5, in a new instance (whose transform starts as the
      identity). */
  method CreateRectangleHighlight(vertices: seq<Vec3>) returns (h: RectangleHighlight)
    requires |vertices| <= 6
    ensures Draws(h, vertices)
    ensures Unflat(h.vertices) == vertices
  {
    var verticesFlat := FlattenVertices(vertices);
    h := RectangleHighlight(verticesFlat, [0, 1, 2, 3, 4, 5], Identity);
    forall i | 0 <= i < |vertices| ensures HighlightVertex(h, i) == vertices[i] {
      assert verticesFlat[3 * i + 0] == Coord(vertices[i], 0);
      assert verticesFlat[3 * i + 1] == Coord(vertices[i], 1);
      assert verticesFlat[3 * i + 2] == Coord(vertices[i], 2);
    }
  }

  /** The face a press selects: the hit rectangle of the closest block, if a block's
      bounds are met and one of its triangles is hit. */
  function RectangleOf(pick: Pick, bs: seq<Block>): Option<seq<Vec3>>
    requires BlocksValid(bs)
    reads set k | 0 <= k < |bs| :: bs[k].instance
    reads set k | 0 <= k < |bs| :: bs[k].instance.mesh.vertices
  {
    ClosestBlockIn(pick, bs);
    match ClosestBlock(pick, bs)
    case None => None
    case Some(b) => HitRectangle(pick, View(b.instance))
  }

  /** The body of applySelectFace: the closest block, then its hit rectangle; the
      highlight is replaced only when both exist and is kept otherwise. */
  method SelectRectangle(pick: Pick, bs: seq<Block>, current: Option<RectangleHighlight>)
    returns (next: Option<RectangleHighlight>)
    requires BlocksValid(bs)
    ensures RectangleOf(pick, bs).None? ==> next == current
    ensures RectangleOf(pick, bs).Some? ==> next.Some? && Draws(next.value, RectangleOf(pick, bs).value)
  {
    next := current;
    var closestBlock := FindClosestBlock(pick, bs);
    ClosestBlockIn(pick, bs);
    if closestBlock.Some? {
      var view := ReadView(closestBlock.value.instance);
      var rectangleVerts := GetHitRectangle(pick, view);
      if rectangleVerts.Some? {
        var highlighted := CreateRectangleHighlight(rectangleVerts.value);
        next := Some(highlighted);
      }
    }
  }

  /** A highlight of the face starting at slot s draws, for each of its six index
      slots, the world position of the matching slot of the face. */
  lemma HighlightShowsFace(v: MeshView, s: nat, h: RectangleHighlight)
    requires WellFormed(v) && FaceExists(v, s) && Draws(h, FaceVertices(v, s))
    ensures forall j | 0 <= j < 6 ::
      3 * h.indices[j] + 3 <= |h.vertices| && HighlightVertex(h, h.indices[j]) == Corner(v, s + j)
  {
    forall j | 0 <= j < 6 ensures 3 * h.indices[j] + 3 <= |h.vertices| && HighlightVertex(h, h.indices[j]) == Corner(v, s + j) {
      assert h.indices[j] == j;
      assert FaceVertices(v, s)[j] == Corner(v, s + j);
    }
  }

  /** The highlight triangle holding triangle t of the face is triangle t, corner for
      corner. */
  lemma HighlightShowsTriangle(v: MeshView, s: nat, h: RectangleHighlight, t: nat)
    requires WellFormed(v) && FaceExists(v, s) && Draws(h, FaceVertices(v, s)) && s == FaceStart(3 * t)
    ensures s <= 3 * t && 3 * t - s + 3 <= 6
    ensures HighlightVertex(h, h.indices[3 * t - s]) == Corner(v, 3 * t)
    ensures HighlightVertex(h, h.indices[3 * t - s + 1]) == Corner(v, 3 * t + 1)
    ensures HighlightVertex(h, h.indices[3 * t - s + 2]) == Corner(v, 3 * t + 2)
  {
    TriangleInFace(s, t);
    HighlightShowsFace(v, s, h);
    var j := 3 * t - s;
    assert 0 <= j && j + 2 < 6;
    assert s + j == 3 * t;
  }

  /** A highlight of a block's hit rectangle draws the face of the nearest triangle hit,
      and among its two triangles that very triangle t, corner for corner: the ray's
      first hit is shown in red. */
  lemma HighlightShowsHitTriangle(pick: Pick, v: MeshView, h: RectangleHighlight, t: nat)
    requires WellFormed(v) && |v.indices| % 6 == 0 && HitRectangle(pick, v).Some?
    requires Draws(h, HitRectangle(pick, v).value)
    requires IsFirstNearest(FaceCandidates(pick, v, |v.indices| / 3), t)
    ensures HitFace(pick, v) == Some(FaceStart(3 * t)) && FaceExists(v, FaceStart(3 * t))
    ensures Draws(h, FaceVertices(v, FaceStart(3 * t)))
    ensures var j := 3 * t - FaceStart(3 * t);
      && 0 <= j && j + 3 <= 6
      && HighlightVertex(h, h.indices[j]) == Corner(v, 3 * t)
      && HighlightVertex(h, h.indices[j + 1]) == Corner(v, 3 * t + 1)
      && HighlightVertex(h, h.indices[j + 2]) == Corner(v, 3 * t + 2)
  {
    var s := HitFaceOf(pick, v, t);
    HighlightShowsTriangle(v, s, h, t);
  }

  /** The first nearest triangle hit names the hit face, which exists. */
  lemma HitFaceOf(pick: Pick, v: MeshView, t: nat) returns (s: nat)
    requires WellFormed(v) && |v.indices| % 6 == 0
    requires IsFirstNearest(FaceCandidates(pick, v, |v.indices| / 3), t)
    ensures s == FaceStart(3 * t) && HitFace(pick, v) == Some(s) && FaceExists(v, s)
  {
    var n := |v.indices| / 3;
    HitFaceSpec(pick, v);
    var t' :| 0 <= t' < n && IsFirstNearest(FaceCandidates(pick, v, n), t') && HitFace(pick, v).value == FaceStart(3 * t');
    FirstNearestUnique(FaceCandidates(pick, v, n), t, t');
    s := FaceStart(3 * t);
  }

  /** A triangle's first slot lies in its face and leaves room for the other two. */
  lemma TriangleInFace(s: nat, t: nat)
    requires s == FaceStart(3 * t)
    ensures s <= 3 * t && 3 * t - s + 3 <= 6
  {
    assert s % 3 == 0;
  }

  class HighlightHandler {
    /** The block list shared with the scene renderer. */
    const blocks: BlockList
    /** The shown highlight, if any. */
    var highlightedTriangleInstance: Option<RectangleHighlight>

    constructor (blocks: BlockList)
      ensures this.blocks == blocks && highlightedTriangleInstance.None?
    {
      this.blocks := blocks;
      highlightedTriangleInstance := None;
    }

    /** applySelectFace: replaces the highlight by the selected face's rectangle when
        there is one, and keeps the current highlight otherwise. */
    method ApplySelectFace(pick: Pick)
      requires blocks.Valid()
      modifies this
      ensures RectangleOf(pick, blocks.blocks).None? ==> highlightedTriangleInstance == old(highlightedTriangleInstance)
      ensures RectangleOf(pick, blocks.blocks).Some? ==>
        highlightedTriangleInstance.Some? && Draws(highlightedTriangleInstance.value, RectangleOf(pick, blocks.blocks).value)
    {
      highlightedTriangleInstance := SelectRectangle(pick, blocks.blocks, highlightedTriangleInstance);
    }
  }
}
