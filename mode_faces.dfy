/** ModeFacesHandler: selecting the face of a block under the cursor, choosing an axis
    with the x, y and z keys, and pushing the selected face one unit along that axis
    with the up and down arrow keys. */
module ModeFaces {
  import opened Geometry
  import opened Selection
  import opened Scene
  import opened Unique
  import opened Picking
  import opened FaceEdit

  datatype Axis = X | Y | Z

  /** Char.lowercaseChar, for the ASCII letters the handler looks at. */
  function Lower(c: char): char {
    if 'A' <= c <= 'Z' then (c as int + 32) as char else c
  }

  /** The axis a typed character selects: x, y or z in either case, and nothing else. */
  function KeyAxis(c: char): (r: Option<Axis>)
    ensures r == Some(X) <==> c == 'x' || c == 'X'
    ensures r == Some(Y) <==> c == 'y' || c == 'Y'
    ensures r == Some(Z) <==> c == 'z' || c == 'Z'
  {
    match Lower(c)
    case 'x' => Some(X)
    case 'y' => Some(Y)
    case 'z' => Some(Z)
    case _ => None
  }

  /** Input.Keys.UP and Input.Keys.DOWN */
  const Up: int := 19
  const Down: int := 20

  /** The step an arrow key asks for: one unit up the axis or down it, and none for any
      other key. */
  function KeyDelta(keycode: int): (delta: real)
    ensures delta != 0.0 <==> keycode == Up || keycode == Down
    ensures delta > 0.0 <==> keycode == Up
    ensures Abs(delta) == 1.0 || delta == 0.0
  {
    if keycode == Up then 1.0 else if keycode == Down then -1.0 else 0.0
  }

  function AxisIndex(a: Axis): (k: nat)
    ensures k < 3
  {
    match a
    case X => 0
    case Y => 1
    case Z => 2
  }

  /** The world move handed to moveSelectedFace: delta on the chosen axis, zero on the
      other two. */
  function Displacement(a: Axis, delta: real): (d: Vec3)
    ensures d == AxisVector(AxisIndex(a), delta)
  {
    match a
    case X => Vec3(delta, 0.0, 0.0)
    case Y => Vec3(0.0, delta, 0.0)
    case Z => Vec3(0.0, 0.0, delta)
  }

  /** The highlight applySelectFace builds: each face vertex, in the order of the index
      set, carried to world space by the instance transform alone (prj(transform)). */
  function HighlightOf(v: MeshView, idxs: seq<int>): (hs: seq<Vec3>)
    requires IndicesFit(idxs, |v.vertices|)
    ensures |hs| == |idxs|
  {
    seq(|idxs|, j requires 0 <= j < |idxs| => ToWorld(v.transform, PositionAt(v.vertices, idxs[j])))
  }

  /** The loop of applySelectFace that fills rectangleUniqueVerts. */
  method CollectHighlight(v: MeshView, idxs: seq<int>) returns (rectangleUniqueVerts: seq<Vec3>)
    requires IndicesFit(idxs, |v.vertices|)
    ensures rectangleUniqueVerts == HighlightOf(v, idxs)
  {
    rectangleUniqueVerts := [];
    for j := 0 to |idxs|
      invariant rectangleUniqueVerts == HighlightOf(v, idxs)[..j]
    {
      var baseIdx := idxs[j] * Stride + PosOffset;
      var localVertex := Vec3(v.vertices[baseIdx], v.vertices[baseIdx + 1], v.vertices[baseIdx + 2]);
      rectangleUniqueVerts := rectangleUniqueVerts + [ToWorld(v.transform, localVertex)];
    }
  }

  /** For a block whose node transform is the identity (every cube the drawing handler
      builds), the highlight is made of exactly the world-space corners of the hit face
      that getHitRectangle would return, each vertex once. */
  lemma HighlightCoversFace(pick: Pick, v: MeshView)
    requires WellFormed(v) && |v.indices| % 6 == 0 && v.node == Identity && HitFace(pick, v).Some?
    ensures IndicesFit(LastHitFaceIndices(pick, v), |v.vertices|)
    ensures NoDuplicates(LastHitFaceIndices(pick, v))
    ensures HitRectangle(pick, v).Some?
    ensures forall x :: x in HighlightOf(v, LastHitFaceIndices(pick, v)) <==> x in HitRectangle(pick, v).value
  {
    LastHitFaceIndicesSpec(pick, v);
    var s := HitFace(pick, v).value;
    assert HitRectangle(pick, v).value == FaceVertices(v, s);
    HighlightIsFace(v, LastHitFaceIndices(pick, v), s);
  }

  /** An index set holding exactly the face's vertex indices highlights exactly the
      face's corners. */
  lemma HighlightIsFace(v: MeshView, idxs: seq<int>, s: nat)
    requires WellFormed(v) && FaceExists(v, s) && v.node == Identity && IndicesFit(idxs, |v.vertices|)
    requires forall x :: x in idxs <==> x in v.indices[s .. s + 6]
    ensures forall x :: x in HighlightOf(v, idxs) <==> x in FaceVertices(v, s)
  {
    var hs, rect := HighlightOf(v, idxs), FaceVertices(v, s);
    forall x ensures x in hs <==> x in rect {
      if x in hs {
        var j :| 0 <= j < |hs| && hs[j] == x;
        assert idxs[j] in idxs;
        HighlightInFace(v, idxs, s, j);
      }
      if x in rect {
        var m :| 0 <= m < 6 && rect[m] == x;
        assert v.indices[s .. s + 6][m] == v.indices[s + m];
        FaceInHighlight(v, idxs, s, m);
      }
    }
  }

  /** A highlighted vertex taken from one of the face's slots is a corner of the face. */
  lemma HighlightInFace(v: MeshView, idxs: seq<int>, s: nat, j: nat)
    requires WellFormed(v) && FaceExists(v, s) && v.node == Identity && IndicesFit(idxs, |v.vertices|)
    requires j < |idxs| && idxs[j] in v.indices[s .. s + 6]
    ensures HighlightOf(v, idxs)[j] in FaceVertices(v, s)
  {
    var m :| 0 <= m < 6 && v.indices[s .. s + 6][m] == idxs[j];
    assert FaceVertices(v, s)[m] == Corner(v, s + m);
  }

  /** Every corner of the face is highlighted once its vertex index is in the set. */
  lemma FaceInHighlight(v: MeshView, idxs: seq<int>, s: nat, m: nat)
    requires WellFormed(v) && FaceExists(v, s) && v.node == Identity && IndicesFit(idxs, |v.vertices|)
    requires m < 6 && v.indices[s + m] in idxs
    ensures FaceVertices(v, s)[m] in HighlightOf(v, idxs)
  {
    var j :| 0 <= j < |idxs| && idxs[j] == v.indices[s + m];
    assert HighlightOf(v, idxs)[j] == FaceVertices(v, s)[m];
  }

  /** What applySelectFace computes for the picked block: the hit face's vertex indices
      and, when there are any, their highlight. */
  method SelectedFace(pick: Pick, inst: Instance) returns (faceIndices: seq<int>, highlight: Option<seq<Vec3>>)
    requires inst.mesh.Valid()
    ensures faceIndices == LastHitFaceIndices(pick, View(inst))
    ensures NoDuplicates(faceIndices) && IndicesFit(faceIndices, inst.mesh.vertices.Length)
    ensures highlight == if faceIndices == [] then None else Some(HighlightOf(View(inst), faceIndices))
  {
    var v := ReadView(inst);
    faceIndices := FaceIndices(pick, v);
    LastHitFaceIndicesSpec(pick, v);
    highlight := None;
    if |faceIndices| > 0 {
      var rectangleUniqueVerts := CollectHighlight(v, faceIndices);
      highlight := Some(rectangleUniqueVerts);
    }
  }

  class ModeFacesHandler {
    const blocks: BlockList
    var selectedBlock: Option<Block>
    var selectedFaceIndices: seq<int>
    var connectedVertices: seq<int>
    var selectedAxis: Option<Axis>
    /** The highlight handler's state: the world-space vertices shown, or none after reset(). */
    var highlight: Option<seq<Vec3>>

    /** The vertices to move name distinct vertices of the selected block's buffer. */
    ghost predicate Valid()
      reads this
    {
      && NoDuplicates(connectedVertices)
      && (selectedBlock.Some? ==>
            selectedBlock.value.instance.mesh.Valid() &&
            IndicesFit(connectedVertices, selectedBlock.value.instance.mesh.vertices.Length))
      && (selectedBlock.None? ==> connectedVertices == [])
    }

    constructor (blocks: BlockList)
      ensures this.blocks == blocks && Valid()
      ensures selectedBlock == None && selectedFaceIndices == [] && connectedVertices == []
      ensures selectedAxis == None && highlight == None
    {
      this.blocks := blocks;
      selectedBlock := None;
      selectedFaceIndices := [];
      connectedVertices := [];
      selectedAxis := None;
      highlight := None;
    }

    /** keyTyped: x, y or z (either case) selects the axis and is consumed; any other
        character is not, and changes nothing. */
    method KeyTyped(character: char) returns (handled: bool)
      modifies this`selectedAxis
      ensures handled <==> KeyAxis(character).Some?
      ensures selectedAxis == if handled then KeyAxis(character) else old(selectedAxis)
    {
      var axis := KeyAxis(character);
      if axis.Some? {
        selectedAxis := axis;
        return true;
      }
      return false;
    }

    /** moveSelectedFace: the world move, carried into the block's local space by the
        inverse of its transform without translation, is added to every connected vertex.
        Matrix4.inv throws on a transform that cannot be inverted; then nothing changes
        and `thrown` is set. */
    method MoveSelectedFace(worldMove: Vec3) returns (thrown: bool)
      requires Valid()
      modifies if selectedBlock.Some? then {selectedBlock.value.instance.mesh.vertices} else {}
      ensures thrown <==> selectedBlock.Some? && !Invertible(selectedBlock.value.instance.transform)
      ensures selectedBlock.Some? && !thrown ==>
        var inst := selectedBlock.value.instance;
        inst.mesh.vertices[..] == Moved(old(inst.mesh.vertices[..]), connectedVertices, LocalDirection(inst.transform, worldMove))
      ensures selectedBlock.Some? && thrown ==>
        selectedBlock.value.instance.mesh.vertices[..] == old(selectedBlock.value.instance.mesh.vertices[..])
    {
      if selectedBlock.None? {
        return false;
      }
      var block := selectedBlock.value;
      var mesh := block.instance.mesh;
      var vertices := mesh.GetVertices();
      var transform := block.instance.transform;
      if !Invertible(transform) {
        return true;
      }
      var localMove := LocalDirection(transform, worldMove);
      MoveVertices(vertices, connectedVertices, localMove);
      mesh.SetVertices(vertices);
      return false;
    }

    /** keyDown: with a face highlighted and an axis chosen, the up arrow moves the
        selected face one unit along the axis and the down arrow one unit back, and the
        key is consumed; any other key, or no highlight or no axis, changes nothing. */
    method KeyDown(keycode: int) returns (handled: bool, thrown: bool)
      requires Valid()
      modifies if selectedBlock.Some? then {selectedBlock.value.instance.mesh.vertices} else {}
      ensures var moving := highlight.Some? && selectedAxis.Some? && KeyDelta(keycode) != 0.0;
        && (thrown <==> moving && selectedBlock.Some? && !Invertible(selectedBlock.value.instance.transform))
        && (handled <==> moving && !thrown)
        && (selectedBlock.Some? ==>
              var inst := selectedBlock.value.instance;
              inst.mesh.vertices[..] ==
                if moving && !thrown
                then Moved(old(inst.mesh.vertices[..]), connectedVertices,
                           LocalDirection(inst.transform, Displacement(selectedAxis.value, KeyDelta(keycode))))
                else old(inst.mesh.vertices[..]))
    {
      handled, thrown := false, false;
      if highlight.Some? && selectedAxis.Some? {
        var delta := KeyDelta(keycode);
        if delta != 0.0 {
          thrown := MoveSelectedFace(Displacement(selectedAxis.value, delta));
          handled := !thrown;
        }
      }
    }

    /** applySelectFace: the highlight is reset; when the ray meets a block, the nearest
        one becomes the selection, its hit face's vertex indices become both the selected
        and the connected vertices, and a non-empty face is highlighted. A ray that meets
        no block only clears the highlight. */
    method ApplySelectFace(pick: Pick)
      requires Valid() && blocks.Valid()
      modifies this
      ensures Valid()
      ensures selectedAxis == old(selectedAxis)
      ensures var closest := ClosestBlock(pick, old(blocks.blocks));
        && (closest.None? ==>
              && selectedBlock == old(selectedBlock) && highlight == None
              && selectedFaceIndices == old(selectedFaceIndices) && connectedVertices == old(connectedVertices))
        && (closest.Some? ==>
              var v := View(closest.value.instance);
              && closest.value.instance.mesh.Valid()
              && selectedBlock == closest
              && selectedFaceIndices == LastHitFaceIndices(pick, v)
              && connectedVertices == selectedFaceIndices
              && highlight == if selectedFaceIndices == [] then None else Some(HighlightOf(v, selectedFaceIndices)))
    {
      highlight := None;
      var closestBlock := FindClosestBlock(pick, blocks.blocks);
      ClosestBlockIn(pick, blocks.blocks);
      if closestBlock.Some? {
        var faceIndices, verts := SelectedFace(pick, closestBlock.value.instance);
        selectedBlock := closestBlock;
        selectedFaceIndices := faceIndices;
        connectedVertices := selectedFaceIndices;
        highlight := verts;
      }
    }
  }
}
