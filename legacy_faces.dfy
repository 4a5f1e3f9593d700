/** The first face editor (the root FacesHandler): a press selects the hit face of the
    nearest block and highlights its four corners as a quad of two triangles; while
    ALT_LEFT is held, a vertical drag lifts or lowers the face and redraws the quad. */
module LegacyFaces {
  import opened Geometry
  import opened Unique
  import opened Scene
  import opened Picking
  import Highlight
  import opened FaceEdit
  import MeshUtils

  /** Input.Keys.ALT_LEFT */
  const AltLeft: int := 57

  /** setIndices(0, 1, 2, 2, 3, 0): the quad as two triangles of its four corners. */
  const QuadIndices: seq<int> := [0, 1, 2, 2, 3, 0]

  /** The world position of vertex i, and the origin for an index past the buffer. */
  function PointOf(v: MeshView, i: int): Vec3 {
    if 0 <= i && Stride * i + Stride <= |v.vertices| then WorldPosition(v.node, v.transform, v.vertices, i) else Zero
  }

  /** The world positions of the listed vertices, in list order (transformVertex of
      createVertexVector for each index). */
  function WorldVertices(v: MeshView, idxs: seq<int>): (ws: seq<Vec3>)
    requires IndicesFit(idxs, |v.vertices|)
    ensures |ws| == |idxs|
    ensures forall j | 0 <= j < |idxs| :: ws[j] == WorldPosition(v.node, v.transform, v.vertices, idxs[j])
  {
    Map(idxs, PointsOf(v))
  }

  /** PointOf as a function value, for mapping over index lists. */
  function PointsOf(v: MeshView): int -> Vec3 {
    i => PointOf(v, i)
  }

  /** The local positions of the listed vertices, in list order. */
  function LocalVertices(data: seq<real>, idxs: seq<int>): (ps: seq<Vec3>)
    requires IndicesFit(idxs, |data|)
    ensures |ps| == |idxs|
    ensures forall j | 0 <= j < |idxs| :: ps[j] == PositionAt(data, idxs[j])
  {
    seq(|idxs|, j requires 0 <= j < |idxs| => PositionAt(data, idxs[j]))
  }

  /** Different listed vertices lie at different world points. */
  ghost predicate Separated(v: MeshView, idxs: seq<int>) {
    forall x, y | x in idxs && y in idxs && PointOf(v, x) == PointOf(v, y) :: x == y
  }

  /** The six slots of a face are its world vertices taken index by index. */
  lemma FaceIsWorldVertices(v: MeshView, s: nat)
    requires WellFormed(v) && FaceExists(v, s)
    ensures IndicesFit(v.indices[s .. s + 6], |v.vertices|)
    ensures FaceVertices(v, s) == WorldVertices(v, v.indices[s .. s + 6])
  {
    var face := v.indices[s .. s + 6];
    forall j | 0 <= j < 6 ensures face[j] == v.indices[s + j] {
    }
  }

  /** The unique corners of the hit face are never more than its vertex indices. */
  lemma SelectionCorners(pick: Pick, v: MeshView)
    requires WellFormed(v) && |v.indices| % 6 == 0 && HitRectangle(pick, v).Some?
    ensures IndicesFit(LastHitFaceIndices(pick, v), |v.vertices|)
    ensures |Dedup(HitRectangle(pick, v).value)| <= |LastHitFaceIndices(pick, v)|
  {
    HitFaceSpec(pick, v);
    LastHitFaceIndicesSpec(pick, v);
    var s := HitFace(pick, v).value;
    FaceIsWorldVertices(v, s);
    DedupMapBound(v.indices[s .. s + 6], PointsOf(v));
  }

  /** When the face's different vertices lie at different points, its unique corners are
      exactly the world points of its vertex indices, in the same order. */
  lemma SeparatedSelectionCorners(pick: Pick, v: MeshView)
    requires WellFormed(v) && |v.indices| % 6 == 0 && HitRectangle(pick, v).Some?
    requires Separated(v, LastHitFaceIndices(pick, v))
    ensures IndicesFit(LastHitFaceIndices(pick, v), |v.vertices|)
    ensures Dedup(HitRectangle(pick, v).value) == WorldVertices(v, LastHitFaceIndices(pick, v))
  {
    HitFaceSpec(pick, v);
    LastHitFaceIndicesSpec(pick, v);
    var s := HitFace(pick, v).value;
    FaceIsWorldVertices(v, s);
    DedupMapInjective(v.indices[s .. s + 6], PointsOf(v));
  }

  /** On the indexed cube, a hit face has exactly four vertex indices; so if its four
      corners lie at four different points the selection succeeds. */
  lemma CubeFaceHasFourCorners(pick: Pick, v: MeshView)
    requires WellFormed(v) && v.indices == MeshUtils.CubeIndices && HitFace(pick, v).Some?
    ensures |LastHitFaceIndices(pick, v)| == 4
  {
    MeshUtils.IndexTable();
    HitFaceSpec(pick, v);
    LastHitFaceIndicesSpec(pick, v);
    var s := HitFace(pick, v).value;
    var g := s / 6;
    assert s == 6 * g && g < 6;
    assert v.indices[s .. s + 6] == MeshUtils.Group(g);
    MeshUtils.FaceGroup(g);
  }

  /** createRectangleHighlight: exactly four points become the position buffer of a new
      four-vertex mesh; any other count throws IllegalArgumentException (null here)
      before anything is built. */
  method CreateRectangleHighlight(vertices: seq<Vec3>) returns (mesh: array?<real>)
    ensures mesh == null <==> |vertices| != 4
    ensures mesh != null ==> fresh(mesh) && mesh[..] == Flat(vertices) && Unflat(mesh[..]) == vertices
  {
    if |vertices| != 4 {
      return null;
    }
    var verticesFlat := FlattenVertices(vertices);
    mesh := new real[12](i requires 0 <= i < 12 => verticesFlat[i]);
    assert mesh[..] == verticesFlat;
  }

  /** The drag distance in screen pixels as a vertical world move: -deltaY * 0.01, so
      dragging up (toward smaller screen y) lifts the face. */
  function DragAmount(deltaY: int): (amount: real)
    ensures amount > 0.0 <==> deltaY < 0
    ensures amount == 0.0 <==> deltaY == 0
    ensures 100.0 * amount == -(deltaY as real)
  {
    -(deltaY as real) * 0.01
  }

  /** The steps of a drag add up: moving from y0 to y1 and then to y2 asks for the same
      total move as going from y0 to y2 at once. */
  lemma DragStepsAdd(y0: int, y1: int, y2: int)
    ensures DragAmount(y1 - y0) + DragAmount(y2 - y1) == DragAmount(y2 - y0)
  {
  }

  /** Two successive moves of the same vertices are one move by the sum. */
  lemma MovedTwice(data: seq<real>, idxs: seq<int>, d: Vec3, e: Vec3)
    ensures Moved(Moved(data, idxs, d), idxs, e) == Moved(data, idxs, Add(d, e))
  {
    var lhs, rhs := Moved(Moved(data, idxs, d), idxs, e), Moved(data, idxs, Add(d, e));
    forall k | 0 <= k < |data| ensures lhs[k] == rhs[k] {
      var c := k % Stride - PosOffset;
      if PositionSlot(k) && k / Stride in idxs {
        assert Coord(Add(d, e), c) == Coord(d, c) + Coord(e, c);
      }
    }
  }

  /** Carrying world moves into local space is additive. */
  lemma LocalDirectionAdd(t: Transform, d: Vec3, e: Vec3)
    requires Invertible(t)
    ensures Add(LocalDirection(t, d), LocalDirection(t, e)) == LocalDirection(t, Add(d, e))
  {
  }

  /** The world move of one drag step. */
  function Lift(amount: real): Vec3 {
    Vec3(0.0, amount, 0.0)
  }

  /** Two drag steps on the same selection leave the buffer where one step over the
      whole distance would. */
  lemma DragComposes(t: Transform, data: seq<real>, idxs: seq<int>, y0: int, y1: int, y2: int)
    requires Invertible(t)
    ensures Moved(Moved(data, idxs, LocalDirection(t, Lift(DragAmount(y1 - y0)))), idxs, LocalDirection(t, Lift(DragAmount(y2 - y1))))
         == Moved(data, idxs, LocalDirection(t, Lift(DragAmount(y2 - y0))))
  {
    var a, b := DragAmount(y1 - y0), DragAmount(y2 - y1);
    DragStepsAdd(y0, y1, y2);
    MovedTwice(data, idxs, LocalDirection(t, Lift(a)), LocalDirection(t, Lift(b)));
    LocalDirectionAdd(t, Lift(a), Lift(b));
    assert Add(Lift(a), Lift(b)) == Lift(DragAmount(y2 - y0));
  }

  /** The quad updateHighlightVertices writes as the source has it: the first four
      selected vertices at their LOCAL positions, although the highlight is drawn with
      the identity transform. */
  function HighlightAsWritten(data: seq<real>, idxs: seq<int>): (r: seq<real>)
    requires IndicesFit(idxs, |data|) && |idxs| >= 4
    ensures |r| == 12
    ensures Unflat(r) == LocalVertices(data, idxs)[..4]
  {
    UnflatFlat(LocalVertices(data, idxs)[..4]);
    Flat(LocalVertices(data, idxs)[..4])
  }

  /** The quad it evidently means to write: the first four selected vertices at their
      world positions, the points the highlight was built from. */
  function HighlightCorrected(v: MeshView, idxs: seq<int>): (r: seq<real>)
    requires IndicesFit(idxs, |v.vertices|) && |idxs| >= 4
    ensures |r| == 12
    ensures Unflat(r) == WorldVertices(v, idxs)[..4]
  {
    UnflatFlat(WorldVertices(v, idxs)[..4]);
    Flat(WorldVertices(v, idxs)[..4])
  }

  /** The discrepancy: on a block whose transform is a translation t (every block the
      drawing handler places, t being its truncated hit point), the as-written update
      draws each corner of the quad t short of where the face is and where the selection
      drew it; for any t other than the origin, for instance (1, 0, 0), the highlight
      jumps off the block on the first drag step, even one of zero pixels. */
  lemma HighlightAsWrittenMisplaced(v: MeshView, idxs: seq<int>)
    requires v.node == Identity && TranslationOnly(v.transform)
    requires IndicesFit(idxs, |v.vertices|) && |idxs| >= 4
    ensures forall j | 0 <= j < 4 ::
      Unflat(HighlightCorrected(v, idxs))[j] == Add(Unflat(HighlightAsWritten(v.vertices, idxs))[j], v.transform.translation)
    ensures v.transform.translation != Zero ==>
      Unflat(HighlightAsWritten(v.vertices, idxs))[0] != Unflat(HighlightCorrected(v, idxs))[0]
  {
    var local, world := Unflat(HighlightAsWritten(v.vertices, idxs)), Unflat(HighlightCorrected(v, idxs));
    forall j | 0 <= j < 4 ensures world[j] == Add(local[j], v.transform.translation) {
      assert local[j] == PositionAt(v.vertices, idxs[j]);
      assert world[j] == WorldVertices(v, idxs)[j];
    }
  }

  /** After the selected vertices move by the local image of a world move, each of their
      world points is displaced by exactly that move: a quad redrawn from world points
      follows the face. */
  lemma WorldVerticesFollowMove(v: MeshView, idxs: seq<int>, d: Vec3, j: nat)
    requires TranslationOnly(v.node) && Invertible(v.transform)
    requires IndicesFit(idxs, |v.vertices|) && j < |idxs|
    ensures var moved := v.(vertices := Moved(v.vertices, idxs, LocalDirection(v.transform, d)));
      WorldVertices(moved, idxs)[j] == Add(WorldVertices(v, idxs)[j], d)
  {
    assert idxs[j] in idxs;
    MovedWorld(v.node, v.transform, v.vertices, idxs, d, idxs[j]);
  }

  /** Right after a selection whose face vertices lie at separate points, the corrected
      update redraws exactly the quad the selection drew. */
  lemma CorrectedRedrawsSelection(pick: Pick, v: MeshView)
    requires WellFormed(v) && |v.indices| % 6 == 0 && HitRectangle(pick, v).Some?
    requires |Dedup(HitRectangle(pick, v).value)| == 4
    requires IndicesFit(LastHitFaceIndices(pick, v), |v.vertices|) && Separated(v, LastHitFaceIndices(pick, v))
    ensures |LastHitFaceIndices(pick, v)| >= 4
    ensures HighlightCorrected(v, LastHitFaceIndices(pick, v)) == Flat(Dedup(HitRectangle(pick, v).value))
  {
    SeparatedSelectionCorners(pick, v);
    var ws := WorldVertices(v, LastHitFaceIndices(pick, v));
    assert ws[..4] == ws;
  }

  /** A selection the faces handler can hold: without a block, no indices and no
      highlight; with one, at least four distinct vertex indices of its mesh and a
      highlight buffer of four positions that is not the block's own buffer. */
  ghost predicate HeldSelection(block: Option<Block>, indices: seq<int>, highlight: array?<real>) {
    && NoDuplicates(indices)
    && (block.Some? <==> highlight != null)
    && (block.None? ==> indices == [])
    && (block.Some? ==>
          && block.value.instance.mesh.Valid()
          && IndicesFit(indices, block.value.instance.mesh.vertices.Length)
          && |indices| >= 4
          && highlight.Length == 12
          && highlight != block.value.instance.mesh.vertices)
  }

  /** What a press in face selection mode comes to: no face under the cursor, a face
      whose rectangle does not have four corners (applySelectFace throws), or a quad
      of the closest block, with its four corners and its vertex indices. */
  datatype SelectOutcome = Missed | NotQuad | Quad(block: Block, corners: seq<Vec3>, faceIndices: seq<int>)

  /** The outcome of a press on the blocks bs as they are now. */
  ghost function Outcome(pick: Pick, bs: seq<Block>): (o: SelectOutcome)
    requires BlocksValid(bs)
    reads set k | 0 <= k < |bs| :: bs[k].instance
    reads set k | 0 <= k < |bs| :: bs[k].instance.mesh.vertices
    ensures o.Quad? ==> o.block in bs && |o.corners| == 4
  {
    ClosestBlockIn(pick, bs);
    match Highlight.RectangleOf(pick, bs)
    case None => Missed
    case Some(r) =>
      if |Dedup(r)| != 4 then NotQuad
      else
        var b := ClosestBlock(pick, bs).value;
        Quad(b, Dedup(r), LastHitFaceIndices(pick, View(b.instance)))
  }

  /** A quad is the closest block's hit face: its corners are the four unique corners
      of the hit rectangle, and its indices the distinct vertex indices of the hit
      face, at least four and all inside the block's buffer. When those vertices lie at
      distinct points, the corrected redraw of the highlight reproduces the first
      highlight exactly. */
  lemma OutcomeQuad(pick: Pick, bs: seq<Block>)
    requires BlocksValid(bs) && Outcome(pick, bs).Quad?
    ensures var o := Outcome(pick, bs);
      var v := View(o.block.instance);
      && ClosestBlock(pick, bs) == Some(o.block) && o.block.instance.mesh.Valid()
      && HitRectangle(pick, v).Some? && o.corners == Dedup(HitRectangle(pick, v).value) && |o.corners| == 4
      && o.faceIndices == LastHitFaceIndices(pick, v) && NoDuplicates(o.faceIndices)
      && |o.faceIndices| >= 4 && IndicesFit(o.faceIndices, |v.vertices|)
      && (Separated(v, o.faceIndices) ==> HighlightCorrected(v, o.faceIndices) == Flat(o.corners))
  {
    ClosestBlockIn(pick, bs);
    var v := View(Outcome(pick, bs).block.instance);
    LastHitFaceIndicesSpec(pick, v);
    SelectionCorners(pick, v);
    if Separated(v, LastHitFaceIndices(pick, v)) {
      CorrectedRedrawsSelection(pick, v);
    }
  }

  /** What applySelectFace computes before it changes anything: the nearest block whose
      hit face has four unique corners, those corners as a new highlight buffer, and the
      face's vertex indices, of which there are then at least four. `thrown` is the
      IllegalArgumentException of createRectangleHighlight for another number of corners;
      a ray that meets no block or no face finds nothing. */
  method SelectQuad(pick: Pick, bs: seq<Block>)
    returns (found: Option<Block>, thrown: bool, faceIndices: seq<int>, mesh: array?<real>)
    requires BlocksValid(bs)
    ensures var o := old(Outcome(pick, bs));
      && (thrown <==> o.NotQuad?)
      && (found.Some? <==> o.Quad?)
      && (o.Quad? ==>
            && found == Some(o.block) && faceIndices == o.faceIndices
            && HeldSelection(found, faceIndices, mesh)
            && fresh(mesh) && mesh[..] == Flat(o.corners))
  {
    found, thrown, faceIndices, mesh := None, false, [], null;
    ghost var rect := Highlight.RectangleOf(pick, bs);
    var closestBlock := FindClosestBlock(pick, bs);
    ClosestBlockIn(pick, bs);
    if closestBlock.None? {
      return;
    }
    var view := ReadView(closestBlock.value.instance);
    var rectangleVerts := GetHitRectangle(pick, view);
    assert rectangleVerts == rect;
    if rectangleVerts.None? {
      return;
    }
    var rectangleUniqueVerts := UniqueInOrder(rectangleVerts.value);
    mesh := CreateRectangleHighlight(rectangleUniqueVerts);
    if mesh == null {
      thrown := true;
      return;
    }
    faceIndices := FaceIndices(pick, view);
    LastHitFaceIndicesSpec(pick, view);
    SelectionCorners(pick, view);
    found := closestBlock;
  }

  /** Copying vertex i's three position floats extends the flat list of the first i
      local positions by one point. */
  lemma LocalFlatStep(vertices: seq<real>, faceIndices: seq<int>, i: nat)
    requires IndicesFit(faceIndices, |vertices|) && i < |faceIndices|
    ensures var b := faceIndices[i] * Stride + PosOffset;
      && 0 <= b && b + 2 < |vertices|
      && Flat(LocalVertices(vertices, faceIndices)[..i + 1]) ==
         Flat(LocalVertices(vertices, faceIndices)[..i]) + [vertices[b], vertices[b + 1], vertices[b + 2]]
  {
    var corners := LocalVertices(vertices, faceIndices);
    assert corners[i] == PositionAt(vertices, faceIndices[i]);
    FlatPrefixStep(corners, i);
  }

  /** The loop of updateHighlightVertices as written: for each of the first four
      distinct face indices, the three position floats of that vertex are copied from
      the block's own (local) buffer into the highlight's. */
  method FillHighlightVertices(vertices: seq<real>, faceIndices: seq<int>) returns (highlightVertices: seq<real>)
    requires IndicesFit(faceIndices, |vertices|) && |faceIndices| >= 4 && NoDuplicates(faceIndices)
    ensures highlightVertices == HighlightAsWritten(vertices, faceIndices)
  {
    var uniqueFaceIndices := UniqueOfDistinct(faceIndices);
    highlightVertices := [];
    for i := 0 to 4
      invariant highlightVertices == Flat(LocalVertices(vertices, faceIndices)[..i])
    {
      var idx := uniqueFaceIndices[i];
      var baseIdx := idx * Stride + PosOffset;
      LocalFlatStep(vertices, faceIndices, i);
      highlightVertices := highlightVertices + [vertices[baseIdx], vertices[baseIdx + 1], vertices[baseIdx + 2]];
    }
  }

  class FacesHandler {
    /** The block list shared with the scene renderer. */
    const blocks: BlockList
    var selectedBlock: Option<Block>
    /** A LinkedHashSet: distinct indices in insertion order. */
    var selectedFaceIndices: seq<int>
    var connectedVertices: seq<int>
    /** The position buffer (four vertices, three floats each) of the highlight mesh;
        the highlight instance, drawn with the identity transform, exists exactly when
        this buffer does. */
    var highlightedMesh: array?<real>
    var moveAlongY: bool
    var lastScreenY: int
    var isDragging: bool

    /** A selection always comes with its highlight and at least four distinct face
        indices, naming vertices of the selected buffer; the connected vertices are the
        selected ones; the highlight buffer holds four points and is not the block's. */
    ghost predicate Valid()
      reads this
    {
      && HeldSelection(selectedBlock, selectedFaceIndices, highlightedMesh)
      && connectedVertices == selectedFaceIndices
    }

    constructor (blocks: BlockList)
      ensures this.blocks == blocks && Valid()
      ensures selectedBlock == None && selectedFaceIndices == [] && connectedVertices == []
      ensures highlightedMesh == null && !moveAlongY && lastScreenY == 0 && !isDragging
    {
      this.blocks := blocks;
      selectedBlock := None;
      selectedFaceIndices := [];
      connectedVertices := [];
      highlightedMesh := null;
      moveAlongY := false;
      lastScreenY := 0;
      isDragging := false;
    }

    /** keyDown: ALT_LEFT switches vertical dragging on and is consumed. */
    method KeyDown(keycode: int) returns (handled: bool)
      modifies this`moveAlongY
      ensures handled <==> keycode == AltLeft
      ensures moveAlongY == if handled then true else old(moveAlongY)
    {
      if keycode == AltLeft {
        moveAlongY := true;
        return true;
      }
      return false;
    }

    /** keyUp: releasing ALT_LEFT switches it off again. */
    method KeyUp(keycode: int) returns (handled: bool)
      modifies this`moveAlongY
      ensures handled <==> keycode == AltLeft
      ensures moveAlongY == if handled then false else old(moveAlongY)
    {
      if keycode == AltLeft {
        moveAlongY := false;
        return true;
      }
      return false;
    }

    /** applySelectFace: when the nearest block's face is hit and has four unique corners,
        they become a new highlight, the block and the face's vertex indices become the
        selection and the drag restarts at screenY. A miss changes nothing; a face with
        another number of unique corners throws (`thrown`) before anything changes. */
    method ApplySelectFace(pick: Pick, screenY: int) returns (thrown: bool)
      requires Valid() && blocks.Valid()
      modifies this
      ensures Valid() && moveAlongY == old(moveAlongY)
      ensures var o := old(Outcome(pick, blocks.blocks));
        && (thrown <==> o.NotQuad?)
        && (!o.Quad? ==>
              && selectedBlock == old(selectedBlock) && selectedFaceIndices == old(selectedFaceIndices)
              && connectedVertices == old(connectedVertices) && highlightedMesh == old(highlightedMesh)
              && lastScreenY == old(lastScreenY) && isDragging == old(isDragging))
        && (o.Quad? ==>
              && selectedBlock == Some(o.block) && selectedFaceIndices == o.faceIndices
              && connectedVertices == selectedFaceIndices
              && fresh(highlightedMesh) && highlightedMesh[..] == Flat(o.corners)
              && lastScreenY == screenY && !isDragging)
    {
      ghost var o := Outcome(pick, blocks.blocks);
      var found, faceIndices, mesh;
      found, thrown, faceIndices, mesh := SelectQuad(pick, blocks.blocks);
      if found.Some? {
        highlightedMesh := mesh;
        selectedBlock := found;
        selectedFaceIndices := faceIndices;
        connectedVertices := selectedFaceIndices;
        lastScreenY := screenY;
        isDragging := false;
      }
    }

    /** The arrays a drag may write: the selected block's buffer and the highlight's. */
    function DragFrame(): set<object>
      reads this
    {
      (if selectedBlock.Some? then {selectedBlock.value.instance.mesh.vertices} else {})
      + (if highlightedMesh != null then {highlightedMesh} else {})
    }

    /** moveSelectedFace: the vertical world move, carried into the block's local space by
        the inverse of its transform without translation, is added to every connected
        vertex. Matrix4.inv throws on a transform that cannot be inverted; then nothing
        changes and `thrown` is set. */
    method MoveSelectedFace(deltaY: real) returns (thrown: bool)
      requires Valid()
      modifies if selectedBlock.Some? then {selectedBlock.value.instance.mesh.vertices} else {}
      ensures thrown <==> selectedBlock.Some? && !Invertible(selectedBlock.value.instance.transform)
      ensures selectedBlock.Some? && !thrown ==>
        var inst := selectedBlock.value.instance;
        inst.mesh.vertices[..] == Moved(old(inst.mesh.vertices[..]), connectedVertices, LocalDirection(inst.transform, Lift(deltaY)))
      ensures selectedBlock.Some? && thrown ==>
        selectedBlock.value.instance.mesh.vertices[..] == old(selectedBlock.value.instance.mesh.vertices[..])
    {
      if selectedBlock.None? {
        return false;
      }
      var block := selectedBlock.value;
      var mesh := block.instance.mesh;
      var vertices := mesh.GetVertices();
      var worldMove := Lift(deltaY);
      var transform := block.instance.transform;
      if !Invertible(transform) {
        return true;
      }
      var localMove := LocalDirection(transform, worldMove);
      MoveVertices(vertices, connectedVertices, localMove);
      mesh.SetVertices(vertices);
      return false;
    }

    /** updateHighlightVertices: the first four selected vertices, at their positions in
        the block's local buffer, are written into the highlight's buffer (the quad
        HighlightAsWritten; HighlightAsWrittenMisplaced says where that lands). Valid
        keeps at least four indices, so uniqueFaceIndices[i] never runs past the end. */
    method UpdateHighlightVertices()
      requires Valid()
      modifies highlightedMesh
      ensures selectedBlock.Some? ==>
        highlightedMesh[..] == HighlightAsWritten(selectedBlock.value.instance.mesh.vertices[..], selectedFaceIndices)
      ensures selectedBlock.None? ==> highlightedMesh == null
    {
      if selectedBlock.None? {
        return;
      }
      var block := selectedBlock.value;
      var view := ReadView(block.instance);
      if selectedFaceIndices == [] {
        return;
      }
      var highlightVertices := FillHighlightVertices(view.vertices, selectedFaceIndices);
      forall k | 0 <= k < 12 {
        highlightedMesh[k] := highlightVertices[k];
      }
      assert block.instance.mesh.vertices[..] == view.vertices;
    }

    /** touchDragged: with a highlight and ALT_LEFT held, the first event starts the drag
        at screenY; each later one lifts the face by DragAmount of the vertical distance
        since the last event and rewrites the highlight from the moved local buffer, and
        is consumed. Otherwise the
        event is not handled and nothing changes. A transform that cannot be inverted
        throws (`thrown`) and leaves the buffers as they were. */
    method TouchDragged(screenY: int) returns (handled: bool, thrown: bool)
      requires Valid()
      modifies this, DragFrame()
      ensures Valid()
      ensures selectedBlock == old(selectedBlock) && selectedFaceIndices == old(selectedFaceIndices)
      ensures highlightedMesh == old(highlightedMesh) && moveAlongY == old(moveAlongY)
      ensures var active := highlightedMesh != null && moveAlongY;
        && (!active ==> !handled && !thrown && lastScreenY == old(lastScreenY) && isDragging == old(isDragging))
        && (active ==> lastScreenY == screenY && isDragging)
        && (active && !old(isDragging) ==> handled && !thrown)
        && (active && old(isDragging) ==>
              var inst := selectedBlock.value.instance;
              && (thrown <==> !Invertible(inst.transform))
              && handled == !thrown
              && (!thrown ==>
                    && inst.mesh.vertices[..] == Moved(old(inst.mesh.vertices[..]), connectedVertices,
                         LocalDirection(inst.transform, Lift(DragAmount(screenY - old(lastScreenY)))))
                    && highlightedMesh[..] == HighlightAsWritten(inst.mesh.vertices[..], selectedFaceIndices)))
      ensures var moved := highlightedMesh != null && moveAlongY && old(isDragging) && !thrown;
        && (selectedBlock.Some? && !moved ==>
              selectedBlock.value.instance.mesh.vertices[..] == old(selectedBlock.value.instance.mesh.vertices[..]))
        && (highlightedMesh != null && !moved ==> highlightedMesh[..] == old(highlightedMesh[..]))
    {
      if highlightedMesh != null && moveAlongY {
        if !isDragging {
          lastScreenY := screenY;
          isDragging := true;
          return true, false;
        }
        var deltaY := screenY - lastScreenY;
        lastScreenY := screenY;
        var movementAmount := DragAmount(deltaY);
        thrown := MoveSelectedFace(movementAmount);
        if thrown {
          return false, true;
        }
        UpdateHighlightVertices();
        return true, false;
      }
      return false, false;
    }
  }
}
