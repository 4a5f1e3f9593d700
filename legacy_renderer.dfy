/** The first scene renderer (the root SceneRenderer), which handles input itself: in
    creation mode a press on a scene plane starts a block that shares the renderer's one
    cube mesh, a drag scales it from its anchor and a release commits it; in face
    selection mode a press highlights the face under the cursor. Keys are not handled. */
module LegacyRenderer {
  import opened Geometry
  import opened Scene
  import opened Picking
  import opened LegacyDrawing
  import opened Highlight

  /** The editor modes this renderer knows. */
  datatype Mode = Camera | Create | SelectFace

  /** createCubeModel moves the first node of the centred unit box by (0.5, 0.5, 0.5),
      so the cube spans [0, 1] on every axis. */
  const CubeNode: Transform := Translation(Vec3(0.5, 0.5, 0.5))

  class SceneRenderer {
    /** The renderer's own list of placed blocks. */
    var blocks: seq<Block>
    /** The box from createCubeModel; every block's instance uses this mesh. */
    const cubeModel: Mesh
    var mode: Mode
    var initialDrawingPoint: Vec3
    var drawingBlock: Instance?
    /** The anchor transform saved by applyCreate (a companion object in the source). */
    var auxMatrix: Transform
    var highlightedTriangleInstance: Option<RectangleHighlight>

    /** Every block and the drawing block are instances of the one cube model: they share
        its mesh and its node; a drawing block is anchored at the initial drawing point. */
    ghost predicate Valid()
      reads this
    {
      && cubeModel.Valid()
      && (forall k | 0 <= k < |blocks| :: blocks[k].instance.mesh == cubeModel && blocks[k].instance.node == CubeNode)
      && (drawingBlock != null ==>
            && drawingBlock.mesh == cubeModel && drawingBlock.node == CubeNode
            && auxMatrix == Translation(initialDrawingPoint))
    }

    /** The renderer starts in creation mode with no block; the box the model builder
        makes is given. */
    constructor (cubeModel: Mesh)
      requires cubeModel.Valid()
      ensures this.cubeModel == cubeModel && mode == Create && blocks == []
      ensures drawingBlock == null && initialDrawingPoint == Zero && auxMatrix == Identity
      ensures highlightedTriangleInstance.None?
      ensures Valid()
    {
      this.cubeModel := cubeModel;
      blocks := [];
      mode := Create;
      initialDrawingPoint := Zero;
      drawingBlock := null;
      auxMatrix := Identity;
      highlightedTriangleInstance := None;
    }

    /** setMode */
    method SetMode(mode: Mode)
      modifies this`mode
      ensures this.mode == mode
    {
      this.mode := mode;
    }

    /** keyDown, keyUp and keyTyped are not handled. */
    method KeyDown(keycode: int) returns (handled: bool)
      ensures !handled
    {
      return false;
    }

    method KeyUp(keycode: int) returns (handled: bool)
      ensures !handled
    {
      return false;
    }

    method KeyTyped(character: char) returns (handled: bool)
      ensures !handled
    {
      return false;
    }

    /** touchDown: creation mode starts a block, face selection mode selects a face; the
        press is handled in those two modes only. */
    method TouchDown(pick: Pick) returns (handled: bool)
      requires Valid()
      modifies this
      ensures Valid() && mode == old(mode) && blocks == old(blocks)
      ensures handled <==> mode == Create || mode == SelectFace
      ensures mode != Create ==>
        drawingBlock == old(drawingBlock) && initialDrawingPoint == old(initialDrawingPoint) && auxMatrix == old(auxMatrix)
      ensures mode != SelectFace ==> highlightedTriangleInstance == old(highlightedTriangleInstance)
      ensures mode == Create ==> CreatedBy(pick, old(drawingBlock), old(initialDrawingPoint), old(auxMatrix))
      ensures mode == SelectFace ==> SelectedBy(pick, old(highlightedTriangleInstance))
    {
      if mode == Create {
        ApplyCreate(pick);
        return true;
      } else if mode == SelectFace {
        ApplySelectFace(pick);
        return true;
      }
      return false;
    }

    /** The state applyCreate leaves, from the drawing state before it. */
    ghost predicate CreatedBy(pick: Pick, before: Instance?, point: Vec3, aux: Transform)
      reads this, drawingBlock
    {
      var hit := PlaneHit(pick, ScenePlanes);
      && (hit.None? ==> drawingBlock == before && initialDrawingPoint == point && auxMatrix == aux)
      && (hit.Some? ==>
            var p := TruncVec(hit.value.1);
            && drawingBlock != null && drawingBlock != before
            && drawingBlock.transform == Translation(p)
            && initialDrawingPoint == p && auxMatrix == Translation(p))
    }

    /** The highlight applySelectFace leaves, from the highlight before it. */
    ghost predicate SelectedBy(pick: Pick, before: Option<RectangleHighlight>)
      reads this
      reads set k | 0 <= k < |blocks| :: blocks[k].instance
      reads set k | 0 <= k < |blocks| :: blocks[k].instance.mesh.vertices
      requires BlocksValid(blocks)
    {
      && (RectangleOf(pick, blocks).None? ==> highlightedTriangleInstance == before)
      && (RectangleOf(pick, blocks).Some? ==>
            highlightedTriangleInstance.Some? && Draws(highlightedTriangleInstance.value, RectangleOf(pick, blocks).value))
    }

    /** applySelectFace: the closest block's hit face becomes the highlight, drawn with
        the identity transform; without one the highlight is kept. */
    method ApplySelectFace(pick: Pick)
      requires Valid()
      modifies this`highlightedTriangleInstance
      ensures Valid()
      ensures SelectedBy(pick, old(highlightedTriangleInstance))
    {
      highlightedTriangleInstance := SelectRectangle(pick, blocks, highlightedTriangleInstance);
    }

    /** applyCreate: on a scene-plane hit, a new instance of the cube model (sharing its
        mesh) is placed at the hit point truncated toward zero, and that transform
        becomes the anchor. */
    method ApplyCreate(pick: Pick)
      requires Valid()
      modifies this
      ensures Valid() && mode == old(mode) && blocks == old(blocks)
      ensures highlightedTriangleInstance == old(highlightedTriangleInstance)
      ensures CreatedBy(pick, old(drawingBlock), old(initialDrawingPoint), old(auxMatrix))
      ensures PlaneHit(pick, ScenePlanes).Some? ==> fresh(drawingBlock)
    {
      var hit := FirstPlaneIntersection(pick, ScenePlanes);
      if hit.Some? {
        var point := TruncVec(hit.value.1);
        var modelInstance := new Instance(cubeModel, CubeNode, Translation(point));
        drawingBlock := modelInstance;
        initialDrawingPoint := point;
        auxMatrix := modelInstance.transform;
      }
    }

    /** touchUp: commits the drawing block to the list with its world bounds. */
    method TouchUp() returns (committed: bool)
      requires Valid()
      modifies this
      ensures Valid() && drawingBlock == null && mode == old(mode)
      ensures highlightedTriangleInstance == old(highlightedTriangleInstance)
      ensures committed <==> old(drawingBlock) != null
      ensures committed ==> blocks == old(blocks) + [Block(old(drawingBlock), InstanceBounds(old(drawingBlock)))]
      ensures !committed ==> blocks == old(blocks)
    {
      if drawingBlock != null {
        var bounds := InstanceBounds(drawingBlock);
        var block := Block(drawingBlock, bounds);
        blocks := blocks + [block];
        drawingBlock := null;
        return true;
      }
      return false;
    }

    function DragFrame(): set<object>
      reads this
    {
      if drawingBlock == null then {} else {drawingBlock}
    }

    /** touchDragged: with a drawing block and a scene-plane hit, the block's transform
        becomes the anchor scaled toward the truncated hit point. */
    method TouchDragged(pick: Pick) returns (handled: bool)
      requires Valid()
      modifies DragFrame()
      ensures Valid()
      ensures handled <==> drawingBlock != null && PlaneHit(pick, ScenePlanes).Some?
      ensures !handled && drawingBlock != null ==> drawingBlock.transform == old(drawingBlock.transform)
      ensures handled ==>
        var p := TruncVec(PlaneHit(pick, ScenePlanes).value.1);
        drawingBlock.transform == DragTransform(Translation(initialDrawingPoint), initialDrawingPoint, p)
    {
      if drawingBlock == null {
        return false;
      }
      var hit := FirstPlaneIntersection(pick, ScenePlanes);
      if hit.None? {
        return false;
      }
      var point := TruncVec(hit.value.1);
      drawingBlock.transform := Transform(auxMatrix.translation,
        Mul(auxMatrix.scale, Vec3(ScaleFor(point.x - initialDrawingPoint.x), 1.0, ScaleFor(point.z - initialDrawingPoint.z))));
      return true;
    }
  }
}
