/** The first version of the creation mode (the root DrawingHandler): a press on one of
    the six scene planes starts a unit cube at the truncated hit point; dragging scales
    the cube's transform from that anchor instead of rewriting its mesh; releasing
    commits it to the block list. */
module LegacyDrawing {
  import opened Geometry
  import opened Scene
  import opened MeshUtils
  import opened Picking
  import opened Drawing

  // ---------------------------------------------------------------- the drag rule

  /** The scale factor for a drag of `delta` along one axis: the drag itself when it
      spans more than one cell, one cell otherwise. */
  function ScaleFor(delta: real): (s: real)
    ensures s != 0.0 && Abs(s) >= 1.0
  {
    if Abs(delta) > 1.0 then delta else 1.0
  }

  /** transform.set(auxMatrix).scl(scaleX, 1, scaleZ): the anchor transform followed by
      a scale of the cube along x and z. */
  function DragTransform(aux: Transform, a: Vec3, p: Vec3): (t: Transform)
    ensures t.translation == aux.translation && t.scale.y == aux.scale.y
    ensures Invertible(t) <==> Invertible(aux)
  {
    Transform(aux.translation, Mul(aux.scale, Vec3(ScaleFor(p.x - a.x), 1.0, ScaleFor(p.z - a.z))))
  }

  /** Dragged from anchor a to point p, the unit cube keeps its corner (0, 0, 0) at a and
      one cell of height; along x (and z) its far corner reaches p when the drag spans
      more than a cell, and lies one cell past a otherwise. The transform can always be
      inverted, so face editing later never meets a degenerate block. */
  lemma DragReach(a: Vec3, p: Vec3)
    ensures var t := DragTransform(Translation(a), a, p);
      && Invertible(t)
      && ToWorld(t, Zero) == a
      && ToWorld(t, One).y == a.y + 1.0
      && (Abs(p.x - a.x) > 1.0 ==> ToWorld(t, One).x == p.x)
      && (Abs(p.x - a.x) <= 1.0 ==> ToWorld(t, One).x == a.x + 1.0)
      && (Abs(p.z - a.z) > 1.0 ==> ToWorld(t, One).z == p.z)
      && (Abs(p.z - a.z) <= 1.0 ==> ToWorld(t, One).z == a.z + 1.0)
  {
    DragShape(a, p);
    ImageOf(a, ScaleFor(p.x - a.x), ScaleFor(p.z - a.z));
    AxisReach(a.x, p.x);
    AxisReach(a.z, p.z);
  }

  /** From an anchor without scale, the drag transform is the anchor translation with
      the two drag factors as its scale. */
  lemma DragShape(a: Vec3, p: Vec3)
    ensures DragTransform(Translation(a), a, p) == Transform(a, Vec3(ScaleFor(p.x - a.x), 1.0, ScaleFor(p.z - a.z)))
  {
  }

  /** Where the corners (0, 0, 0) and (1, 1, 1) of the unit cube go. */
  lemma ImageOf(a: Vec3, sx: real, sz: real)
    ensures ToWorld(Transform(a, Vec3(sx, 1.0, sz)), Zero) == a
    ensures ToWorld(Transform(a, Vec3(sx, 1.0, sz)), One) == Vec3(a.x + sx, a.y + 1.0, a.z + sz)
  {
  }

  /** One axis of DragReach. */
  lemma AxisReach(a: real, p: real)
    ensures Abs(p - a) > 1.0 ==> a + ScaleFor(p - a) == p
    ensures Abs(p - a) <= 1.0 ==> a + ScaleFor(p - a) == a + 1.0
  {
  }

  /** Two drags to the same cell give the same transform, whatever came before. */
  lemma DragForgetsHistory(aux: Transform, a: Vec3, p: Vec3, q: Vec3)
    requires TruncVec(p) == TruncVec(q)
    ensures DragTransform(aux, a, TruncVec(p)) == DragTransform(aux, a, TruncVec(q))
  {
  }

  // ---------------------------------------------------------------- face winding

  /** The GL front-face winding (glFrontFace). */
  datatype FrontFace = CounterClockwise | Clockwise

  /** The condition touchDragged tests before switching to clockwise winding. It agrees
      with the intended switch (FlipsCorrected) except when both factors are negative. */
  function FlipsAsWritten(scaleX: real, scaleZ: real): (flip: bool)
    ensures FlipsCorrected(scaleX, scaleZ) ==> flip
    ensures flip && !FlipsCorrected(scaleX, scaleZ) ==> scaleX < 0.0 && scaleZ < 0.0
  {
    scaleX < 0.0 || scaleZ < 0.0
  }

  /** A transform mirrors space, and so turns counter-clockwise triangles clockwise,
      exactly when the product of its scale factors is negative. */
  predicate Mirrors(t: Transform) {
    t.scale.x * t.scale.y * t.scale.z < 0.0
  }

  /** The winding switch as intended: clockwise exactly when one of the two factors is
      negative. */
  function FlipsCorrected(scaleX: real, scaleZ: real): (flip: bool)
    ensures flip ==> scaleX < 0.0 || scaleZ < 0.0
  {
    (scaleX < 0.0) != (scaleZ < 0.0)
  }

  /** The product of two non-zero reals is negative exactly when their signs differ. */
  lemma NegativeProduct(u: real, v: real)
    requires u != 0.0 && v != 0.0
    ensures u * v < 0.0 <==> (u < 0.0) != (v < 0.0)
  {
    if u < 0.0 && v < 0.0 {
      assert (-u) * (-v) > 0.0;
    } else if u > 0.0 && v > 0.0 {
      assert u * v > 0.0;
    } else if u < 0.0 {
      assert (-u) * v > 0.0;
    } else {
      assert u * (-v) > 0.0;
    }
  }

  /** The corrected switch picks clockwise winding exactly for the drags whose
      transform mirrors the cube. */
  lemma FlipsCorrectedMirrors(a: Vec3, p: Vec3)
    ensures var t := DragTransform(Translation(a), a, p);
      FlipsCorrected(ScaleFor(p.x - a.x), ScaleFor(p.z - a.z)) <==> Mirrors(t)
  {
    var sx, sz := ScaleFor(p.x - a.x), ScaleFor(p.z - a.z);
    DragShape(a, p);
    assert sx * 1.0 * sz == sx * sz;
    NegativeProduct(sx, sz);
  }

  /** The switch as written picks clockwise winding for every drag that mirrors the
      cube, and for one more kind of drag: back along both x and z, which does not. */
  lemma FlipsAsWrittenMirrors(a: Vec3, p: Vec3)
    ensures var t := DragTransform(Translation(a), a, p);
      var sx, sz := ScaleFor(p.x - a.x), ScaleFor(p.z - a.z);
      FlipsAsWritten(sx, sz) <==> Mirrors(t) || (sx < 0.0 && sz < 0.0)
  {
    FlipsCorrectedMirrors(a, p);
  }

  /** A drag from (5, 0, 5) back to (2, 0, 2) scales both x and z by -3. */
  lemma DragBackThree()
    ensures ScaleFor(2.0 - 5.0) == -3.0
    ensures DragTransform(Translation(Vec3(5.0, 0.0, 5.0)), Vec3(5.0, 0.0, 5.0), Vec3(2.0, 0.0, 2.0)) ==
      Transform(Vec3(5.0, 0.0, 5.0), Vec3(-3.0, 1.0, -3.0))
  {
    DragShape(Vec3(5.0, 0.0, 5.0), Vec3(2.0, 0.0, 2.0));
  }

  /** That drag (DragBackThree) turns the cube half a turn and does not mirror it, yet
      the source's test switches to clockwise winding, so the block's outer faces are
      culled as back faces; the corrected switch keeps counter-clockwise winding. */
  lemma FlipsAsWrittenDoubleNegative()
    ensures FlipsAsWritten(-3.0, -3.0)
    ensures !Mirrors(Transform(Vec3(5.0, 0.0, 5.0), Vec3(-3.0, 1.0, -3.0)))
    ensures !FlipsCorrected(-3.0, -3.0)
  {
  }

  // ---------------------------------------------------------------- the handler

  class DrawingHandler {
    /** The block list shared with the scene renderer. */
    const blocks: BlockList
    /** The handler's own indexed cube, cloned for every new block. */
    const cubeModel: Mesh
    var initialDrawingPoint: Vec3
    var drawingBlock: Instance?
    /** The anchor transform saved by applyCreate (a companion object in the source). */
    var auxMatrix: Transform
    /** The GL front-face winding that touchDragged switches. */
    var frontFace: FrontFace

    /** The cube model has the indexed cube's shape; a drawing block is a clone of it,
        with a buffer of its own, anchored at the initial drawing point. */
    ghost predicate Valid()
      reads this
    {
      && cubeModel.Valid() && cubeModel.numVertices == 8 && cubeModel.indices == CubeIndices
      && (drawingBlock != null ==>
            && DrawingShape(drawingBlock)
            && drawingBlock.mesh.vertices != cubeModel.vertices
            && auxMatrix == Translation(initialDrawingPoint))
    }

    constructor (blocks: BlockList)
      ensures this.blocks == blocks && drawingBlock == null && initialDrawingPoint == Zero
      ensures auxMatrix == Identity && frontFace == CounterClockwise
      ensures fresh(cubeModel.vertices) && cubeModel.vertices[..] == CubeVertexData()
      ensures Valid()
    {
      var cube := CreateIndexedCubeModel();
      this.blocks := blocks;
      cubeModel := cube;
      initialDrawingPoint := Zero;
      drawingBlock := null;
      auxMatrix := Identity;
      frontFace := CounterClockwise;
    }

    /** applyCreate: on a scene-plane hit, a clone of the cube is placed at the hit point
        truncated toward zero, and that transform becomes the anchor. */
    method ApplyCreate(pick: Pick)
      requires Valid()
      modifies this
      ensures Valid() && frontFace == old(frontFace)
      ensures var hit := PlaneHit(pick, ScenePlanes);
        && (hit.None? ==>
              drawingBlock == old(drawingBlock) && initialDrawingPoint == old(initialDrawingPoint) &&
              auxMatrix == old(auxMatrix))
        && (hit.Some? ==>
              var p := TruncVec(hit.value.1);
              && drawingBlock != null && fresh(drawingBlock) && fresh(drawingBlock.mesh.vertices)
              && drawingBlock.transform == Translation(p)
              && drawingBlock.mesh.vertices[..] == cubeModel.vertices[..]
              && initialDrawingPoint == p && auxMatrix == Translation(p))
    {
      var hit := FirstPlaneIntersection(pick, ScenePlanes);
      if hit.Some? {
        var point := TruncVec(hit.value.1);
        var mesh := CloneMesh(cubeModel);
        var modelInstance := new Instance(mesh, Identity, Translation(point));
        drawingBlock := modelInstance;
        initialDrawingPoint := point;
        auxMatrix := modelInstance.transform;
      }
    }

    /** What a drag may change: the winding and the drawing block's transform. */
    function DragFrame(): set<object>
      reads this
    {
      if drawingBlock == null then {} else {drawingBlock}
    }

    /** touchDragged: with a drawing block and a scene-plane hit, the block's transform
        becomes the anchor scaled toward the truncated hit point, and the winding is
        switched to clockwise exactly when either drag factor is negative (the test as
        written; FlipsAsWrittenMirrors says when that differs from mirroring). */
    method TouchDragged(pick: Pick) returns (handled: bool)
      requires Valid()
      modifies this`frontFace, DragFrame()
      ensures Valid()
      ensures handled <==> drawingBlock != null && PlaneHit(pick, ScenePlanes).Some?
      ensures !handled ==> frontFace == old(frontFace)
      ensures !handled && drawingBlock != null ==> drawingBlock.transform == old(drawingBlock.transform)
      ensures handled ==>
        var p := TruncVec(PlaneHit(pick, ScenePlanes).value.1);
        var a := initialDrawingPoint;
        && drawingBlock.transform == DragTransform(Translation(a), a, p)
        && (frontFace == Clockwise <==> FlipsAsWritten(ScaleFor(p.x - a.x), ScaleFor(p.z - a.z)))
    {
      if drawingBlock == null {
        return false;
      }
      var hit := FirstPlaneIntersection(pick, ScenePlanes);
      if hit.None? {
        return false;
      }
      var point := TruncVec(hit.value.1);
      var scaleX := ScaleFor(point.x - initialDrawingPoint.x);
      var scaleZ := ScaleFor(point.z - initialDrawingPoint.z);
      drawingBlock.transform := Transform(auxMatrix.translation, Mul(auxMatrix.scale, Vec3(scaleX, 1.0, scaleZ)));
      if FlipsAsWritten(scaleX, scaleZ) {
        frontFace := Clockwise;
      } else {
        frontFace := CounterClockwise;
      }
      return true;
    }

    /** touchUp: commits the drawing block to the list with its world bounds. */
    method TouchUp() returns (committed: bool)
      requires Valid()
      modifies this, blocks
      ensures Valid() && drawingBlock == null && frontFace == old(frontFace)
      ensures committed <==> old(drawingBlock) != null
      ensures committed ==> blocks.blocks == old(blocks.blocks) + [Block(old(drawingBlock), InstanceBounds(old(drawingBlock)))]
      ensures !committed ==> blocks.blocks == old(blocks.blocks)
    {
      if drawingBlock != null {
        var bounds := InstanceBounds(drawingBlock);
        var block := Block(drawingBlock, bounds);
        blocks.Add(block);
        drawingBlock := null;
        return true;
      }
      return false;
    }
  }
}
