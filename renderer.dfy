/** The scene renderer of the editor: the current mode routes input to the drawing
    handler or the face handler, and the block list is saved as positions and restored
    as freshly built cubes. */
module Renderer {
  import opened Geometry
  import opened Scene
  import opened MeshUtils
  import opened Picking
  import opened Drawing
  import opened ModeFaces

  /** The editor's modes. */
  datatype Mode = Camera | Create | Faces

  // ---------------------------------------------------------------- persistence

  /** BlockData: the translation of a block and the positions of its vertices. */
  datatype BlockData = BlockData(position: Vec3, vertices: seq<Vec3>)

  /** What save() writes for a block with this transform and buffer of n vertices. */
  function RecordOf(t: Transform, data: seq<real>, n: nat): (d: BlockData)
    requires Stride * n <= |data|
    ensures d.position == t.translation && |d.vertices| == n
    ensures forall i | 0 <= i < n :: d.vertices[i] == PositionAt(data, i)
  {
    BlockData(t.translation, Positions(data, n))
  }

  /** What save() writes for a block as it is now. */
  function Record(b: Block): BlockData
    reads b.instance, b.instance.mesh.vertices
    requires b.instance.mesh.Valid()
  {
    RecordOf(b.instance.transform, b.instance.mesh.vertices[..], b.instance.mesh.numVertices)
  }

  /** The buffer createModelFromVertices builds from eight positions: each position with
      the sum of the normals of the cube's triangles that name it. */
  function RestoredData(ps: seq<Vec3>): (r: seq<real>)
    requires |ps| == 8
    ensures |r| == 48
  {
    IndexTable();
    Interleaved(ps, VertexNormals(ps, CubeIndices))
  }

  /** Saving a restored block writes back the record it was restored from. */
  lemma SaveRestored(d: BlockData)
    requires |d.vertices| == 8
    ensures RecordOf(Translation(d.position), RestoredData(d.vertices), 8) == d
  {
    IndexTable();
    PositionsOfInterleaved(d.vertices, VertexNormals(d.vertices, CubeIndices));
  }

  /** A cube drawn and never resized restores to exactly the buffer it had: its normals
      are the ones createModelFromVertices recomputes from the positions. */
  lemma RestoreCube()
    ensures Positions(CubeVertexData(), 8) == Corners
    ensures RestoredData(Positions(CubeVertexData(), 8)) == CubeVertexData()
  {
    IndexTable();
    PositionsOfInterleaved(Corners, VertexNormals(Corners, CubeIndices));
  }

  /** The number of records load() restores before one without eight positions makes
      createModelFromVertices throw (all of them when there is none). */
  function Loadable(ds: seq<BlockData>): (n: nat)
    ensures n <= |ds|
    ensures forall k | 0 <= k < n :: |ds[k].vertices| == 8
    ensures n < |ds| ==> |ds[n].vertices| != 8
  {
    if |ds| == 0 || |ds[0].vertices| != 8 then 0 else 1 + Loadable(ds[1..])
  }

  /** A record with eight positions past the restored prefix extends it by one. */
  lemma LoadableStep(ds: seq<BlockData>, k: nat)
    requires k <= Loadable(ds) && k < |ds| && |ds[k].vertices| == 8
    ensures k + 1 <= Loadable(ds)
  {
  }

  /** The bounds load() computes for a record: the box around the restored vertices,
      translated to the record's position. */
  function RestoredBounds(d: BlockData): Box
    requires |d.vertices| == 8
  {
    WorldBounds(Identity, Translation(d.position), RestoredData(d.vertices), 8)
  }

  /** What a restored block holds that no later heap update can touch. */
  predicate RestoredShape(b: Block, d: BlockData) {
    && |d.vertices| == 8
    && b.instance.mesh.Valid() && b.instance.mesh.numVertices == 8 && b.instance.mesh.indices == CubeIndices
    && b.instance.node == Identity && b.bounds == RestoredBounds(d)
  }

  /** A block as load() builds it from a record. */
  predicate Restored(b: Block, d: BlockData)
    reads b.instance, b.instance.mesh.vertices
  {
    && RestoredShape(b, d)
    && b.instance.transform == Translation(d.position)
    && b.instance.mesh.vertices[..] == RestoredData(d.vertices)
  }

  /** A restored block's bounds are the ones computed from the block as it now is. */
  lemma RestoredBoundsAgree(b: Block, d: BlockData)
    requires Restored(b, d)
    ensures b.bounds == InstanceBounds(b.instance)
  {
  }

  /** createModelFromVertices: a new indexed cube whose positions are the given ones and
      whose normals are recomputed from them; anything but eight positions fails the
      require. */
  method CreateModelFromVertices(newPositions: seq<Vec3>) returns (mesh: Option<Mesh>)
    ensures mesh.None? <==> |newPositions| != 8
    ensures mesh.Some? ==>
      && fresh(mesh.value) && fresh(mesh.value.vertices)
      && mesh.value.Valid() && mesh.value.numVertices == 8 && mesh.value.indices == CubeIndices
      && mesh.value.vertices[..] == RestoredData(newPositions)
  {
    if |newPositions| != 8 {
      return None;
    }
    var model := CreateIndexedCubeModel();
    var vertices := model.GetVertices();
    var indices := model.indices;
    IndexTable();
    var vertexNormals := AccumulateNormals(newPositions, indices);
    WriteVertexData(vertices, newPositions, vertexNormals);
    model.SetVertices(vertices);
    return Some(model);
  }

  /** The mapping of save() for one block: its translation and the position of each of
      its vertices, in vertex order. */
  method SaveBlock(block: Block) returns (blockData: BlockData)
    requires block.instance.mesh.Valid()
    ensures blockData == Record(block)
  {
    var pos := block.instance.transform.translation;
    var mesh := block.instance.mesh;
    var vertexData := mesh.GetVertices();
    var vertices: seq<Vec3> := [];
    for i := 0 to mesh.numVertices
      invariant vertices == Positions(vertexData[..], mesh.numVertices)[..i]
    {
      var base := i * Stride + PosOffset;
      vertices := vertices + [Vec3(vertexData[base], vertexData[base + 1], vertexData[base + 2])];
    }
    blockData := BlockData(pos, vertices);
  }

  /** The body of load()'s loop for one record: the restored model, an instance of it
      translated to the record's position, and its world bounds; none when the model
      cannot be built. */
  method RestoreBlock(blockData: BlockData) returns (block: Option<Block>)
    ensures block.None? <==> |blockData.vertices| != 8
    ensures block.Some? ==>
      && Restored(block.value, blockData)
      && fresh(block.value.instance) && fresh(block.value.instance.mesh.vertices)
  {
    var model := CreateModelFromVertices(blockData.vertices);
    if model.None? {
      return None;
    }
    var instance := new Instance(model.value, Identity, Translation(blockData.position));
    var bounds := InstanceBounds(instance);
    return Some(Block(instance, bounds));
  }

  /** One pass of load()'s loop: restores record k and appends it to the list, keeping
      every block appended so far as it was restored. */
  method RestoreNext(list: BlockList, ghost added: seq<Block>, ds: seq<BlockData>, k: nat) returns (block: Option<Block>)
    requires k < |ds| && |added| == k && list.blocks == added && list.Valid()
    requires forall j | 0 <= j < k :: Restored(added[j], ds[j])
    modifies list
    ensures block.None? <==> |ds[k].vertices| != 8
    ensures block.None? ==> list.blocks == added
    ensures block.Some? ==> list.blocks == added + [block.value]
    ensures block.Some? ==> fresh(block.value.instance) && fresh(block.value.instance.mesh.vertices)
    ensures list.Valid() && forall j | 0 <= j < |list.blocks| :: Restored(list.blocks[j], ds[j])
  {
    block := RestoreBlock(ds[k]);
    if block.Some? {
      list.Add(block.value);
    }
  }

  class SceneRenderer {
    const blocks: BlockList
    var mode: Mode
    const drawingHandler: DrawingHandler
    const modeFacesHandler: ModeFacesHandler

    /** Both handlers share the renderer's block list, and every block is a valid mesh. */
    ghost predicate Valid()
      reads this, blocks, drawingHandler, modeFacesHandler
    {
      && drawingHandler.blocks == blocks && modeFacesHandler.blocks == blocks
      && blocks.Valid() && drawingHandler.Valid() && modeFacesHandler.Valid()
    }

    constructor ()
      ensures Valid() && mode == Create && blocks.blocks == []
      ensures fresh(blocks) && fresh(drawingHandler) && fresh(modeFacesHandler)
    {
      var bs := new BlockList();
      blocks := bs;
      mode := Create;
      drawingHandler := new DrawingHandler(bs);
      modeFacesHandler := new ModeFacesHandler(bs);
    }

    method SetMode(mode: Mode)
      modifies this`mode
      ensures this.mode == mode
    {
      this.mode := mode;
    }

    /** keyDown: the face handler's answer in face mode; otherwise not handled. */
    method KeyDown(keycode: int) returns (handled: bool, thrown: bool)
      requires Valid()
      modifies if mode == Faces && modeFacesHandler.selectedBlock.Some?
        then {modeFacesHandler.selectedBlock.value.instance.mesh.vertices} else {}
      ensures Valid()
      ensures mode != Faces ==> !handled && !thrown
    {
      if mode == Faces {
        handled, thrown := modeFacesHandler.KeyDown(keycode);
        return;
      }
      return false, false;
    }

    method KeyUp(keycode: int) returns (handled: bool)
      ensures !handled
    {
      return false;
    }

    /** keyTyped: the face handler's answer in face mode; otherwise not handled. */
    method KeyTyped(character: char) returns (handled: bool)
      requires Valid()
      modifies if mode == Faces then {modeFacesHandler} else {}
      ensures Valid()
      ensures handled <==> mode == Faces && KeyAxis(character).Some?
    {
      if mode == Faces {
        handled := modeFacesHandler.KeyTyped(character);
        return;
      }
      return false;
    }

    /** touchDown: creates a block in create mode, selects a face in face mode (both
        consumed), and ignores the touch in camera mode. */
    method TouchDown(pick: Pick) returns (handled: bool)
      requires Valid()
      modifies drawingHandler, modeFacesHandler
      ensures Valid()
      ensures handled <==> mode != Camera
      ensures mode != Create ==> unchanged(drawingHandler)
      ensures mode != Faces ==> unchanged(modeFacesHandler)
    {
      if mode == Create {
        drawingHandler.ApplyCreate(pick);
        return true;
      } else if mode == Faces {
        modeFacesHandler.ApplySelectFace(pick);
        return true;
      }
      return false;
    }

    /** touchUp: the drawing handler commits its drawing block whatever the mode. */
    method TouchUp() returns (handled: bool)
      requires Valid()
      modifies drawingHandler, blocks
      ensures Valid()
      ensures handled <==> old(drawingHandler.drawingBlock) != null
      ensures handled ==>
        blocks.blocks == old(blocks.blocks) + [Block(old(drawingHandler.drawingBlock), InstanceBounds(old(drawingHandler.drawingBlock)))]
      ensures !handled ==> blocks.blocks == old(blocks.blocks)
    {
      handled := drawingHandler.TouchUp();
    }

    /** touchDragged: resizes the drawing block in create mode only. */
    method TouchDragged(pick: Pick) returns (handled: bool)
      requires Valid()
      modifies if mode == Create then drawingHandler.DrawingFrame() else {}
      ensures Valid()
      ensures handled <==> mode == Create && drawingHandler.drawingBlock != null && PlaneHit(pick, ScenePlanes).Some?
    {
      if mode == Create {
        handled := drawingHandler.TouchDragged(pick);
        return;
      }
      return false;
    }

    /** save(): the record of every block, in list order (what is then written as JSON). */
    method Save() returns (blockDataList: seq<BlockData>)
      requires Valid()
      ensures |blockDataList| == |blocks.blocks|
      ensures forall k | 0 <= k < |blocks.blocks| :: blockDataList[k] == Record(blocks.blocks[k])
    {
      blockDataList := [];
      for k := 0 to |blocks.blocks|
        invariant |blockDataList| == k
        invariant forall j | 0 <= j < k :: blockDataList[j] == Record(blocks.blocks[j])
      {
        var blockData := SaveBlock(blocks.blocks[k]);
        blockDataList := blockDataList + [blockData];
      }
    }

    /** load(): clears the list, then rebuilds a fresh block from each record in order,
        translated to the record's position with bounds computed from its vertices. A
        record without eight positions throws, leaving the blocks restored so far. */
    method Load(loadedBlocks: seq<BlockData>) returns (thrown: bool)
      requires Valid()
      modifies blocks
      ensures Valid()
      ensures thrown <==> Loadable(loadedBlocks) < |loadedBlocks|
      ensures |blocks.blocks| == Loadable(loadedBlocks)
      ensures forall k | 0 <= k < |blocks.blocks| ::
        && Restored(blocks.blocks[k], loadedBlocks[k])
        && fresh(blocks.blocks[k].instance) && fresh(blocks.blocks[k].instance.mesh.vertices)
    {
      blocks.Clear();
      ghost var added: seq<Block> := [];
      for k := 0 to |loadedBlocks|
        invariant k <= Loadable(loadedBlocks) && |added| == k && blocks.blocks == added && blocks.Valid()
        invariant forall j | 0 <= j < k :: Restored(added[j], loadedBlocks[j])
        invariant forall j | 0 <= j < k :: fresh(added[j].instance) && fresh(added[j].instance.mesh.vertices)
      {
        var block := RestoreNext(blocks, added, loadedBlocks, k);
        if block.None? {
          return true;
        }
        LoadableStep(loadedBlocks, k);
        added := added + [block.value];
      }
      return false;
    }
  }
}
