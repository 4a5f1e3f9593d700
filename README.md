# fps-map-editor core, modelled in Dafny

This project models the editing core of a small libGDX level editor for first-person
games. The editor's scene is a list of blocks. Each block is a model instance of an indexed
unit cube (8 corners, 36 indices, an interleaved buffer of position and normal per
vertex) together with its world bounds. The model covers:

- **The canonical cube** (`MeshUtils`). This covers the corner and index tables, the
  per-corner accumulation of triangle normals, and the stride-6 interleaved buffer. It proves which face each
  index group really is: "Top" is the z = 1 face and "Front" is the y = 1 face.
- **Block creation** (`Drawing`, the live `sr/handlers/DrawingHandler`). A press snaps the hit
  face of the nearest triangle to the integer cell beside it. Failing that, it takes the
  ground plane cell under the cursor. A drag resizes the footprint by rewriting fixed
  slots of a copy of the pristine buffer. A release commits the block to the list.
- **Face selection and nudging** (`ModeFaces`, `Picking`, `FaceEdit`). A press picks the
  nearest block by bounding-box centre and the face of the nearest hit triangle. An axis
  key chooses x, y or z, and UP/DOWN moves exactly the selected vertex slots.
- **Mode dispatch and persistence** (`Renderer`, the live `sr/SceneRenderer`). Events are
  routed by mode. `save` projects each block to its translation and 8 corner positions,
  and `load` rebuilds blocks from those records.
- **Earlier handlers still in the tree**, each a separate small model:
  - `LegacyDrawing`, the root `DrawingHandler`: signed-scale drag from a saved anchor.
  - `LegacyRenderer`, the root `SceneRenderer`: creation and face highlighting in one class.
  - `LegacyFaces`, the root `FacesHandler`: first-occurrence deduplication of the
    rectangle, the ALT-key drag state machine, and moving a face along y.
  - `Highlight`, the root `HighlightHandler`: the flattened six-vertex highlight.

Positions are exact `real`s. The ray/plane, ray/triangle and ray/box tests and the pick
ray are an oracle (`Scene.Pick`): it gives an optional hit point for each candidate, and
the nearest-hit selection rules are proved on top of those results. A `Matrix4` is
modelled as a translation plus a per-axis scale (`Geometry.Transform`). The editor only
ever builds transforms of that form: it translates them and scales them on x and z.

Code that mutates state is modelled imperatively:
- handlers are classes whose fields the methods update;
- vertex buffers are `array<real>`, updated by the source's own loops with their invariants.

Each such method is specified against a function of the old state, and the source's
promises are proved as lemmas about those functions. A Kotlin `throw` (from `require`,
an explicit `throw`, or `Matrix4.inv` on a singular matrix) becomes a `thrown` result, a
null array or `None`.

Shared modules:
- `Geometry`: vectors, transforms, boxes and truncation.
- `Unique`: first-occurrence deduplication.
- `Selection`: the strict-< nearest scan.
- `Scene`: meshes, instances, the block list, the scene planes and flattening.

## Model

| member | source | states |
|---|---|---|
| Geometry.AxisVector | core/src/main/kotlin/com/gadarts/fme/ModeFacesHandler.kt:55-61 | The vector carries the given amount on the chosen axis and 0.0 on the other two. |
| Geometry.Trunc | core/src/main/kotlin/com/gadarts/fme/DrawingHandler.kt:209 | Float.toInt truncates toward zero. For r >= 0 the result n satisfies n <= r < n + 1; for r < 0 it satisfies n - 1 < r <= n. |
| Geometry.LocalDirection | core/src/main/kotlin/com/gadarts/fme/ModeFacesHandler.kt:204-207 | The local move, mapped back through the block transform's scale, gives the world move. For a translation-only transform the local move equals the world move. |
| Geometry.BoxOf | core/src/main/kotlin/com/gadarts/fme/sr/SceneRenderer.kt:159-161 | The bounding box of a non-empty list of points contains every point of the list. |
| Geometry.WorldBoxContains | core/src/main/kotlin/com/gadarts/fme/sr/SceneRenderer.kt:159-161 | After bounds.mul(transform), the box contains the transformed image of every point the local box contained. |
| Unique.Dedup | core/src/main/kotlin/com/gadarts/fme/FacesHandler.kt:27-37 | Defined as keeping the first occurrence of each element. `DedupSpec` specifies it. |
| Unique.DedupSpec | core/src/main/kotlin/com/gadarts/fme/FacesHandler.kt:27-37 | getUniqueRectangleVertices keeps the first occurrence of each vector. No two outputs are equal. Every input occurs in the output and every output occurs in the input. The output is no longer than the input, and outputs keep the order of their first occurrences. |
| Unique.DedupDistinct | core/src/main/kotlin/com/gadarts/fme/FacesHandler.kt:27-37 | A list without duplicates comes back unchanged, so deduplicating twice is the same as once. |
| Unique.DedupMapBound | core/src/main/kotlin/com/gadarts/fme/FacesHandler.kt:82 | Mapping vertex indices to positions and then removing duplicates leaves at most as many entries as removing duplicate indices does. |
| Unique.DedupMapInjective | core/src/main/kotlin/com/gadarts/fme/FacesHandler.kt:82 | When distinct indices have distinct positions, removing duplicates commutes with the mapping. |
| Unique.UniqueInOrder | core/src/main/kotlin/com/gadarts/fme/FacesHandler.kt:27-37 | The append loop returns exactly the first-occurrence deduplication of its input. |
| Selection.Nearest | core/src/main/kotlin/com/gadarts/fme/ModeFacesHandler.kt:76-86 | Defined as the strict-< scan, one `Improve` step per candidate. `NearestIsFirstNearest` specifies it. |
| Selection.NearestIsFirstNearest | core/src/main/kotlin/com/gadarts/fme/ModeFacesHandler.kt:76-86 | A minimum-distance scan with strict < finds nothing exactly when no candidate is hit. Otherwise it returns the hit candidate at some index k: every earlier hit is strictly farther and every later hit is no nearer, so ties keep the earlier one. |
| Selection.FirstNearestUnique | core/src/main/kotlin/com/gadarts/fme/ModeFacesHandler.kt:76-86 | At most one index satisfies that rule, so the scan's choice is determined. |
| Selection.NearestSnoc | core/src/main/kotlin/com/gadarts/fme/ModeFacesHandler.kt:80-84 | Scanning one more candidate replaces the best only when the new one is hit and strictly nearer. |
| Selection.HitCandidate | core/src/main/kotlin/com/gadarts/fme/ModeFacesHandler.kt:77-80 | A candidate exists exactly when the ray test hits. Its distance is the squared distance from the ray origin to the hit point (dst2). |
| Selection.KeepNearer | core/src/main/kotlin/com/gadarts/fme/ModeFacesHandler.kt:80-84 | One iteration of the scan body performs exactly that strict-< step. |
| Scene.Mesh.constructor | core/src/main/kotlin/com/gadarts/fme/utils/MeshUtils.kt:77-84 | The new mesh holds a fresh vertex array with the given contents and the given index list and vertex count. |
| Scene.Mesh.GetVertices | core/src/main/kotlin/com/gadarts/fme/GeneralUtils.kt:9-13 | getVerticesForMesh returns a fresh copy of the vertex buffer. |
| Scene.Mesh.SetVertices | core/src/main/kotlin/com/gadarts/fme/sr/handlers/DrawingHandler.kt:49 | setVertices replaces the buffer contents with the given array's contents. |
| Scene.Instance.constructor | core/src/main/kotlin/com/gadarts/fme/sr/SceneRenderer.kt:156-157 | A model instance keeps the mesh, the node transform and the instance transform it is given. |
| Scene.BlockList.constructor | core/src/main/kotlin/com/gadarts/fme/sr/SceneRenderer.kt:25 | The block list starts empty. |
| Scene.BlockList.Add | core/src/main/kotlin/com/gadarts/fme/sr/SceneRenderer.kt:163 | blocks.add appends exactly the given block and changes nothing else. |
| Scene.BlockList.Clear | core/src/main/kotlin/com/gadarts/fme/sr/SceneRenderer.kt:149 | blocks.clear leaves the list empty. |
| Scene.NodePositions | core/src/main/kotlin/com/gadarts/fme/HighlightHandler.kt:65-73 | Vertex i's position, read at slot stride * i, is mapped through the node transform, one entry per vertex. |
| Scene.WorldBoundsContainVertices | core/src/main/kotlin/com/gadarts/fme/sr/SceneRenderer.kt:159-161 | A block's computed world bounds contain the world position of each of its vertices. |
| Scene.CloneMesh | core/src/main/kotlin/com/gadarts/fme/DrawingHandler.kt:125-200 | cloneModel's new mesh has the original's vertex count, index list and vertex contents in a fresh array, so later edits to the clone leave the original alone. |
| Scene.ScenePlanesBoundWorld | core/src/main/kotlin/com/gadarts/fme/sr/handlers/DrawingHandler.kt:304-311 | There are six scene planes: the floor y = 0, the ceiling y = WORLD_SIZE, and the walls x = 0, x = WORLD_SIZE, z = 0 and z = WORLD_SIZE. Each is stated as a point-on-plane iff. |
| Scene.FlatAt | core/src/main/kotlin/com/gadarts/fme/HighlightHandler.kt:118-127 | In createVerticesFlatArray, element 3i + k is component k of vertex i. |
| Scene.UnflatFlat | core/src/main/kotlin/com/gadarts/fme/HighlightHandler.kt:118-127 | Regrouping the flat array in threes gives back the input vertices. |
| Scene.FlattenVertices | core/src/main/kotlin/com/gadarts/fme/HighlightHandler.kt:118-127 | The loop builds an array of length 3n, with vertex i's components at 3i .. 3i + 2, that unflattens back to its input. |
| MeshUtils.CornerCoordinates | core/src/main/kotlin/com/gadarts/fme/utils/MeshUtils.kt:21-30 | Corner i has x = 1 iff i is in {1,2,5,6}, y = 1 iff i is in {2,3,6,7}, and z = 1 iff i is in {4,5,6,7}. Every other coordinate is 0. |
| MeshUtils.IndexTable | core/src/main/kotlin/com/gadarts/fme/utils/MeshUtils.kt:32-45 | There are 36 indices, a multiple of 6, and each names one of the 8 corners. |
| MeshUtils.GroupTable | core/src/main/kotlin/com/gadarts/fme/utils/MeshUtils.kt:32-45 | The six consecutive six-index groups are the six labelled rows of the table. |
| MeshUtils.SixFaces | core/src/main/kotlin/com/gadarts/fme/utils/MeshUtils.kt:32-45 | The six faces assigned to the groups are pairwise different as (axis, side) pairs. Each outward sign is +1 on side 1 and -1 on side 0. |
| MeshUtils.FaceGroup | core/src/main/kotlin/com/gadarts/fme/utils/MeshUtils.kt:32-45 | Each group names exactly 4 distinct corners. These are exactly the corners on one face: "Bottom" z = 0, "Top" z = 1, "Front" y = 1, "Back" y = 0, "Left" x = 0, "Right" x = 1. |
| MeshUtils.CornerOnThreeFaces | core/src/main/kotlin/com/gadarts/fme/utils/MeshUtils.kt:32-45 | Every corner lies on exactly 3 of the six faces. |
| MeshUtils.PlanarNormal | core/src/main/kotlin/com/gadarts/fme/utils/MeshUtils.kt:54 | A triangle whose corners agree on one coordinate has a cross product along that axis only. |
| MeshUtils.FacePlanar | core/src/main/kotlin/com/gadarts/fme/utils/MeshUtils.kt:49-59 | Each of the 12 cube triangles is planar on its group's face axis, so its cross product is a multiple of that axis. |
| MeshUtils.FaceNormal | core/src/main/kotlin/com/gadarts/fme/utils/MeshUtils.kt:54 | The outward normal of each face has unit length. |
| MeshUtils.Orientation | core/src/main/kotlin/com/gadarts/fme/utils/MeshUtils.kt:54 | Each triangle's cross product (v2 - v1) x (v3 - v1) points out of the cube: its face-axis component is the face's outward sign. |
| MeshUtils.FaceNormalsOutward | core/src/main/kotlin/com/gadarts/fme/utils/MeshUtils.kt:49-59 | On the canonical corners, each triangle's cross product is exactly the outward unit axis normal of its face. Both triangles of a group therefore agree, and normalising changes nothing. |
| MeshUtils.VertexNormals | core/src/main/kotlin/com/gadarts/fme/utils/MeshUtils.kt:47-59 | Each corner's entry is the sum of the normals of all triangles that name it. |
| MeshUtils.UnusedCornerZero | core/src/main/kotlin/com/gadarts/fme/utils/MeshUtils.kt:47-59 | A corner that no triangle names keeps a zero sum. |
| MeshUtils.TriangleAddsOnce | core/src/main/kotlin/com/gadarts/fme/utils/MeshUtils.kt:56-58 | A triangle with three different corners adds its normal exactly once to each of its corners and to no other. |
| MeshUtils.CubeTrianglesProper | core/src/main/kotlin/com/gadarts/fme/utils/MeshUtils.kt:32-45 | No cube triangle repeats a corner. |
| MeshUtils.AddTo | core/src/main/kotlin/com/gadarts/fme/utils/MeshUtils.kt:56 | vertexNormals[k].add(normal) changes entry k only. |
| MeshUtils.AccumulateNormals | core/src/main/kotlin/com/gadarts/fme/utils/MeshUtils.kt:49-59 | The normal loop over the array leaves every corner's summed triangle normals. |
| MeshUtils.AddTriangle | core/src/main/kotlin/com/gadarts/fme/utils/MeshUtils.kt:50-58 | One pass of the loop body advances the sums by exactly one triangle. |
| MeshUtils.TriangleStep | core/src/main/kotlin/com/gadarts/fme/utils/MeshUtils.kt:56-58 | The three adds of one iteration take the sums over t triangles to the sums over t + 1. |
| MeshUtils.Interleaved | core/src/main/kotlin/com/gadarts/fme/utils/MeshUtils.kt:66-75 | Defines the (position, normal) buffer, six floats per vertex. `InterleavedAt` and `PositionsOfInterleaved` specify it. |
| MeshUtils.InterleavedAt | core/src/main/kotlin/com/gadarts/fme/utils/MeshUtils.kt:66-75 | In the interleaved buffer, corner i's position sits at 6i .. 6i + 2 and its normal at 6i + 3 .. 6i + 5. |
| MeshUtils.PositionsOfInterleaved | core/src/main/kotlin/com/gadarts/fme/utils/MeshUtils.kt:66-75 | Reading the positions back out of the buffer gives the corner list. |
| MeshUtils.WriteVertexData | core/src/main/kotlin/com/gadarts/fme/utils/MeshUtils.kt:66-75 | The flatten loop fills the FloatArray with exactly the interleaved buffer. |
| MeshUtils.WriteVertex | core/src/main/kotlin/com/gadarts/fme/utils/MeshUtils.kt:68-74 | One iteration writes the six floats of vertex i and keeps the prefix already written. |
| MeshUtils.CubeVertexData | core/src/main/kotlin/com/gadarts/fme/utils/MeshUtils.kt:67 | The cube's vertex buffer has 48 floats. |
| MeshUtils.CubeBuffer | core/src/main/kotlin/com/gadarts/fme/utils/MeshUtils.kt:66-75 | Cube corner i's slots hold its table position and its summed normal. |
| MeshUtils.CreateIndexedCubeModel | core/src/main/kotlin/com/gadarts/fme/utils/MeshUtils.kt:13-108 | The result is a valid mesh of 8 vertices with the 36-entry index table and exactly the cube buffer. The other copies of this function are at DrawingHandler.kt:28-123 and sr/handlers/DrawingHandler.kt:52-147. |
| Picking.View | core/src/main/kotlin/com/gadarts/fme/sr/handlers/DrawingHandler.kt:245-249 | What a pick reads of an instance: its buffer, indices, node and transform. For a valid mesh, every index names a vertex and faces come in sixes. |
| Picking.FirstPlaneIntersection | core/src/main/kotlin/com/gadarts/fme/sr/handlers/DrawingHandler.kt:350-376 | The plane loop returns the nearest plane hit under the strict-< rule. |
| Picking.PlaneHit | core/src/main/kotlin/com/gadarts/fme/sr/handlers/DrawingHandler.kt:350-376 | Defined as the nearest plane candidate. A hit names one of the planes and the point where the ray meets that plane. `PlaneHitSpec` specifies it fully. |
| Picking.PlaneHitSpec | core/src/main/kotlin/com/gadarts/fme/sr/handlers/DrawingHandler.kt:350-376 | No plane hit iff no scene plane meets the ray. Otherwise the result is the first nearest plane and its hit point. |
| Picking.FindClosestBlock | core/src/main/kotlin/com/gadarts/fme/ModeFacesHandler.kt:74-86 | The block loop returns the closest block as specified. |
| Picking.ClosestBlock | core/src/main/kotlin/com/gadarts/fme/ModeFacesHandler.kt:74-86 | Defined as the nearest block candidate. The picked block's bounds are met by the ray. `ClosestBlockSpec` specifies it fully. |
| Picking.ClosestBlockSpec | core/src/main/kotlin/com/gadarts/fme/ModeFacesHandler.kt:74-86 | No block iff the ray meets no block's bounds. Otherwise the result is a met block with the strictly smallest squared distance from the ray origin to its bounds' centre; the earlier block wins ties. |
| Picking.ClosestBlockIn | core/src/main/kotlin/com/gadarts/fme/ModeFacesHandler.kt:88-89 | The selected block is one of the scene's blocks. |
| Picking.FaceStart | core/src/main/kotlin/com/gadarts/fme/ModeFacesHandler.kt:154 | i - i % 6 is a multiple of 6, no greater than i, and within 6 of it. |
| Picking.HitFaceStart | core/src/main/kotlin/com/gadarts/fme/ModeFacesHandler.kt:137-157 | The triangle loop computes the face start of the nearest hit triangle, or none. |
| Picking.ConsiderTriangle | core/src/main/kotlin/com/gadarts/fme/ModeFacesHandler.kt:142-156 | One iteration keeps triangle t only when it is hit strictly nearer. |
| Picking.HitFace | core/src/main/kotlin/com/gadarts/fme/ModeFacesHandler.kt:137-157 | Defined as the face start of the nearest triangle candidate. A face starts at a multiple of 6 inside the index list. `HitFaceSpec` specifies it fully. |
| Picking.HitFaceSpec | core/src/main/kotlin/com/gadarts/fme/ModeFacesHandler.kt:141-157 | No face iff no triangle is hit. Otherwise the result is i - i % 6 for the first nearest hit triangle. It is a multiple of 6, and with faces in sixes the whole group lies inside the index list. |
| Picking.LastHitFaceIndices | core/src/main/kotlin/com/gadarts/fme/ModeFacesHandler.kt:129-168 | Defined as the distinct indices of the hit face's six slots. There are at most six. `LastHitFaceIndicesSpec` specifies it fully. |
| Picking.LastHitFaceIndicesSpec | core/src/main/kotlin/com/gadarts/fme/ModeFacesHandler.kt:159-167 | With no hit the set is empty. Otherwise an index is in the set iff it is one of the six index slots from the face start. The set has no duplicates and names vertices of the buffer. |
| Picking.FaceIndices | core/src/main/kotlin/com/gadarts/fme/ModeFacesHandler.kt:129-168 | getLastHitFaceIndices returns that set. |
| Picking.FaceVertices | core/src/main/kotlin/com/gadarts/fme/HighlightHandler.kt:105-113 | The face's six world-space corners, one per index slot, in index order. |
| Picking.HitRectangle | core/src/main/kotlin/com/gadarts/fme/HighlightHandler.kt:75-116 | Defined as the six world vertices of the hit face. A rectangle exists iff a face is hit, and it has six vertices. |
| Picking.GetHitRectangle | core/src/main/kotlin/com/gadarts/fme/HighlightHandler.kt:75-116 | getHitRectangle returns the six vertices of the nearest hit triangle's face in index order, or null when no triangle is hit. This is the same loop as SceneRenderer.kt:210-251 and FacesHandler.kt:168-209. |
| Picking.CollectFace | core/src/main/kotlin/com/gadarts/fme/HighlightHandler.kt:105-113 | The collect loop returns the face's six vertices. |
| Drawing.AxisClamp | core/src/main/kotlin/com/gadarts/fme/sr/handlers/DrawingHandler.kt:298-302 | Defined by the three-way `when`. The result is a unit axis vector, or zero for a zero normal. It is specified by `AxisClampDominant`. |
| Drawing.AxisClampDominant | core/src/main/kotlin/com/gadarts/fme/sr/handlers/DrawingHandler.kt:298-302 | axisClamp is a unit axis vector carrying the sign of the dominant component. x wins only if strictly largest, then y if \|y\| > \|z\|, else z. |
| Drawing.LastDominantUnique | core/src/main/kotlin/com/gadarts/fme/sr/handlers/DrawingHandler.kt:298-302 | That dominant axis is unique. |
| Drawing.AxisClampScale | core/src/main/kotlin/com/gadarts/fme/sr/handlers/DrawingHandler.kt:262 | Scaling the normal by a positive factor (such as nor()) does not change axisClamp. |
| Drawing.AxisClampTrunc | core/src/main/kotlin/com/gadarts/fme/sr/handlers/DrawingHandler.kt:262-266 | The clamped normal has integer components, so truncating it to the Int n of snap loses nothing. |
| Drawing.Snap | core/src/main/kotlin/com/gadarts/fme/sr/handlers/DrawingHandler.kt:266 | Defined as floor(c - eps * n) + n. Its contract says snap - n is the integer part of c - eps * n. `SnapOutward` and `SnapInward` place the cell. |
| Drawing.SnapFlat | core/src/main/kotlin/com/gadarts/fme/sr/handlers/DrawingHandler.kt:266 | snap(c, 0) is floor(c). |
| Drawing.SnapOutward | core/src/main/kotlin/com/gadarts/fme/sr/handlers/DrawingHandler.kt:265-266 | For a hit within eps above integer k, snap with n = +1 gives k. |
| Drawing.SnapInward | core/src/main/kotlin/com/gadarts/fme/sr/handlers/DrawingHandler.kt:265-266 | For a hit within eps below integer k, snap with n = -1 gives k - 1. |
| Drawing.PlacementBesideFace | core/src/main/kotlin/com/gadarts/fme/sr/handlers/DrawingHandler.kt:265-272 | For a hit on the integer plane of the dominant axis, the new cell is that face's value on the outward side (+1) or one less on the inward side (-1). It is floor on the other axes, so the unit cell touches the hit face without overlapping the hit block. |
| Drawing.PlacementPriority | core/src/main/kotlin/com/gadarts/fme/sr/handlers/DrawingHandler.kt:251-294 | If any triangle is hit, the first nearest triangle's (strict <) cell wins and the ground plane is not consulted. Otherwise a ground hit gives (floor x, 0, floor z), and with neither there is no placement. |
| Drawing.ConsiderTriangle | core/src/main/kotlin/com/gadarts/fme/sr/handlers/DrawingHandler.kt:251-274 | One iteration of the triangle loop performs the strict-< step on triangle t's candidate. |
| Drawing.ScanBlock | core/src/main/kotlin/com/gadarts/fme/sr/handlers/DrawingHandler.kt:251-275 | The triangle loop extends the nearest-so-far over one block's candidates. |
| Drawing.ScanTriangle | core/src/main/kotlin/com/gadarts/fme/sr/handlers/DrawingHandler.kt:252-274 | The loop body for slot i = 3t takes the scan over t triangles to t + 1. |
| Drawing.ScanBlocks | core/src/main/kotlin/com/gadarts/fme/sr/handlers/DrawingHandler.kt:235-276 | The block loop returns the nearest candidate over all blocks' triangles, in order. |
| Drawing.PlacementFor | core/src/main/kotlin/com/gadarts/fme/sr/handlers/DrawingHandler.kt:226-285 | Defines the placement the loop computes. There is no placement only when the ground plane is missed too. `PlacementPriority` specifies it. |
| Drawing.PlacementPosition | core/src/main/kotlin/com/gadarts/fme/sr/handlers/DrawingHandler.kt:235-285 | The placement position is the prioritised one: block hit, else ground plane, else none. |
| Drawing.SetSlotsStep | core/src/main/kotlin/com/gadarts/fme/sr/handlers/DrawingHandler.kt:40-47 | One iteration of a resize loop writes one component slot of one corner. |
| Drawing.SetSlotsVertex | core/src/main/kotlin/com/gadarts/fme/sr/handlers/DrawingHandler.kt:40-47 | Writing component c of the listed corners changes those corners' c coordinate only. Every other position float and all normal floats keep their value. |
| Drawing.ResizedAt | core/src/main/kotlin/com/gadarts/fme/sr/handlers/DrawingHandler.kt:37-49 | After resizeMeshXZ, corners 1, 2, 5, 6 have x = width and corners 4, 5, 6, 7 have z = depth. Every other float equals the pristine buffer. |
| Drawing.ResizedCube | core/src/main/kotlin/com/gadarts/fme/sr/handlers/DrawingHandler.kt:32-50 | On the unit cube, corner i becomes (x_i * width, y_i, z_i * depth), with its normals unchanged. |
| Drawing.ResizedCorner | core/src/main/kotlin/com/gadarts/fme/sr/handlers/DrawingHandler.kt:37-49 | The same holds for any buffer whose positions are the unit corners. |
| Drawing.DragSize | core/src/main/kotlin/com/gadarts/fme/sr/handlers/DrawingHandler.kt:334-335 | w = max(1, \|p - a\|) is at least 1 and at least the drag distance. |
| Drawing.DragSpan | core/src/main/kotlin/com/gadarts/fme/sr/handlers/DrawingHandler.kt:334-346 | When \|Δ\| >= 1 the span [min, min + w] equals [min, max] of the anchor and the current point. Otherwise it is 1 wide. |
| Drawing.DrawingHandler.constructor | core/src/main/kotlin/com/gadarts/fme/sr/handlers/DrawingHandler.kt:378-385 | Starts with no drawing block, a zero anchor and the pristine unit-cube buffer. |
| Drawing.DrawingHandler.CloneCube | core/src/main/kotlin/com/gadarts/fme/sr/handlers/DrawingHandler.kt:149-224 | The clone is a fresh valid cube mesh with the pristine buffer and the cube index table. |
| Drawing.DrawingHandler.ApplyCreate | core/src/main/kotlin/com/gadarts/fme/sr/handlers/DrawingHandler.kt:226-295 | With no placement, drawingBlock and the anchor are unchanged. Otherwise a fresh pristine cube is placed at the prioritised position, and that position becomes the anchor. |
| Drawing.DrawingHandler.ResizeMeshXZ | core/src/main/kotlin/com/gadarts/fme/sr/handlers/DrawingHandler.kt:32-50 | The mesh's buffer becomes ResizedXZ of the pristine buffer. It depends only on (width, depth), so resizes do not accumulate and repeating a size gives the same buffer. |
| Drawing.DrawingHandler.TouchDragged | core/src/main/kotlin/com/gadarts/fme/sr/handlers/DrawingHandler.kt:327-348 | Handled iff there is a drawing block and a plane hit, and nothing changes otherwise. When handled, the buffer is the resize to (max(1, \|Δx\|), max(1, \|Δz\|)) and the translation is (min(px, ax), ay, min(pz, az)). |
| Drawing.DrawingHandler.TouchUp | core/src/main/kotlin/com/gadarts/fme/sr/handlers/DrawingHandler.kt:314-325 | With a drawing block, exactly that block (with its world bounds) is appended, drawingBlock is cleared, and the result is true. Without one, the result is false and the blocks are unchanged. |
| FaceEdit.Moved | core/src/main/kotlin/com/gadarts/fme/ModeFacesHandler.kt:195-217 | Defines the buffer after the move: same length, each position slot of a listed vertex shifted by its component. `MovedVertex` and `MovedWorld` specify it. |
| FaceEdit.MovedStep | core/src/main/kotlin/com/gadarts/fme/ModeFacesHandler.kt:209-215 | One iteration of the += loop adds the move to the three position slots of one more vertex. |
| FaceEdit.AddAt | core/src/main/kotlin/com/gadarts/fme/ModeFacesHandler.kt:210-213 | The three += statements change exactly those three slots. |
| FaceEdit.MoveVertices | core/src/main/kotlin/com/gadarts/fme/ModeFacesHandler.kt:209-217 | The loop leaves the buffer moved at exactly the connected vertices. |
| FaceEdit.MovedVertex | core/src/main/kotlin/com/gadarts/fme/ModeFacesHandler.kt:195-217 | After the move, a vertex in the connected set has its position plus the delta. Every other vertex's position and every normal float are unchanged. |
| FaceEdit.WorldMove | core/src/main/kotlin/com/gadarts/fme/ModeFacesHandler.kt:204-207 | Through the instance transform, the local move moves a vertex by exactly the world move. |
| FaceEdit.MovedWorld | core/src/main/kotlin/com/gadarts/fme/ModeFacesHandler.kt:195-217 | In world space, moved vertices shift by exactly the world delta and the others stay put. |
| Highlight.CreateRectangleHighlight | core/src/main/kotlin/com/gadarts/fme/HighlightHandler.kt:129-154 | The highlight draws exactly the given points, in order, flattened three floats per vertex. Its indices are 0..5, its transform is the identity, and it unflattens back to the points. |
| Highlight.SelectRectangle | core/src/main/kotlin/com/gadarts/fme/HighlightHandler.kt:22-44 | With no block or no triangle hit the current highlight is kept. Otherwise the closest block's hit face becomes the highlight. |
| Highlight.HighlightShowsFace | core/src/main/kotlin/com/gadarts/fme/HighlightHandler.kt:129-154 | Each of the six highlight index slots draws the world position of the matching face slot. |
| Highlight.HighlightShowsTriangle | core/src/main/kotlin/com/gadarts/fme/HighlightHandler.kt:129-154 | The highlight triangle holding triangle t of the face is triangle t, corner for corner. |
| Highlight.HighlightShowsHitTriangle | core/src/main/kotlin/com/gadarts/fme/HighlightHandler.kt:87-154 | A highlight of the hit rectangle draws the face of the first nearest hit triangle t. Among its indexed triangles it draws t itself, corner for corner. |
| Highlight.TriangleInFace | core/src/main/kotlin/com/gadarts/fme/HighlightHandler.kt:100 | A triangle's first slot lies in its face and leaves room for its other two slots. |
| Highlight.HighlightHandler.constructor | core/src/main/kotlin/com/gadarts/fme/HighlightHandler.kt:156-157 | Starts with no highlight and shares the given block list. |
| Highlight.HighlightHandler.ApplySelectFace | core/src/main/kotlin/com/gadarts/fme/HighlightHandler.kt:22-44 | highlightedTriangleInstance is unchanged when no bounds or no triangle is hit. Otherwise it is replaced by the selected face's rectangle. |
| LegacyDrawing.DragTransform | core/src/main/kotlin/com/gadarts/fme/DrawingHandler.kt:258-259 | Defined as `transform.set(auxMatrix).scl(scaleX, 1, scaleZ)`. It keeps the anchor's translation and y scale, and is invertible iff the anchor is. Specified further by `DragReach` and `DragShape`. |
| LegacyDrawing.ScaleFor | core/src/main/kotlin/com/gadarts/fme/DrawingHandler.kt:255-256 | A drag scale is never 0 and never strictly between -1 and 1. |
| LegacyDrawing.DragReach | core/src/main/kotlin/com/gadarts/fme/DrawingHandler.kt:255-259 | The dragged (invertible) transform keeps the anchor at the origin corner. The far corner follows the hit point on x and z when \|Δ\| > 1, and reaches 1 past the anchor otherwise; y always reaches 1 past. |
| LegacyDrawing.DragShape | core/src/main/kotlin/com/gadarts/fme/DrawingHandler.kt:258-259 | Starting from the anchor matrix, the drag yields translation = anchor and scale = (scaleX, 1, scaleZ). |
| LegacyDrawing.AxisReach | core/src/main/kotlin/com/gadarts/fme/DrawingHandler.kt:255-256 | On one axis, anchor + scale is the point when \|Δ\| > 1 and anchor + 1 otherwise. |
| LegacyDrawing.DragForgetsHistory | core/src/main/kotlin/com/gadarts/fme/DrawingHandler.kt:258-259 | Each drag restarts from the saved anchor, so the result depends only on the current truncated point and scales do not compound. |
| LegacyDrawing.FlipsAsWritten | core/src/main/kotlin/com/gadarts/fme/DrawingHandler.kt:262-268 | Defined by the source's test `scaleX < 0 \|\| scaleZ < 0`. Its contract says it agrees with `FlipsCorrected` except when both factors are negative. |
| LegacyDrawing.FlipsCorrected | core/src/main/kotlin/com/gadarts/fme/DrawingHandler.kt:262-268 | The corrected winding choice picks clockwise only when some scale is negative. |
| LegacyDrawing.NegativeProduct | core/src/main/kotlin/com/gadarts/fme/DrawingHandler.kt:262-268 | For two nonzero scales, the product is negative iff exactly one of them is negative. |
| LegacyDrawing.FlipsCorrectedMirrors | core/src/main/kotlin/com/gadarts/fme/DrawingHandler.kt:262-268 | The corrected choice is clockwise iff the drag transform mirrors (scaleX * scaleZ < 0). |
| LegacyDrawing.FlipsAsWrittenMirrors | core/src/main/kotlin/com/gadarts/fme/DrawingHandler.kt:255-268 | For every drag, the source's test picks clockwise iff the transform mirrors or both factors are negative. |
| LegacyDrawing.DragBackThree | core/src/main/kotlin/com/gadarts/fme/DrawingHandler.kt:255-259 | A drag from (5,0,5) to (2,0,2) gives scale (-3, 1, -3). |
| LegacyDrawing.FlipsAsWrittenDoubleNegative | core/src/main/kotlin/com/gadarts/fme/DrawingHandler.kt:262-268 | The source's `scaleX < 0 \|\| scaleZ < 0` picks clockwise for scale (-3, 1, -3), which does not mirror. The corrected rule does not. |
| LegacyDrawing.DrawingHandler.constructor | core/src/main/kotlin/com/gadarts/fme/DrawingHandler.kt:305-312 | Starts with no drawing block, an identity anchor matrix, counter-clockwise winding and the cube buffer. |
| LegacyDrawing.DrawingHandler.ApplyCreate | core/src/main/kotlin/com/gadarts/fme/DrawingHandler.kt:202-218 | On a plane hit, a fresh clone is translated to the hit point truncated toward zero, and that point and transform become the anchor. On a miss nothing changes. |
| LegacyDrawing.DrawingHandler.TouchDragged | core/src/main/kotlin/com/gadarts/fme/DrawingHandler.kt:243-274 | Handled iff there is a drawing block and a plane hit. When handled, the transform is DragTransform from the anchor, and the winding is clockwise iff `FlipsAsWritten` holds of the two drag factors, i.e. iff either is negative (the test as written). When not handled, transform and winding are kept. |
| LegacyDrawing.DrawingHandler.TouchUp | core/src/main/kotlin/com/gadarts/fme/DrawingHandler.kt:230-241 | With a drawing block, exactly one block is appended and the drawing state is cleared. Otherwise it returns false with the blocks unchanged. |
| LegacyRenderer.SceneRenderer.constructor | core/src/main/kotlin/com/gadarts/fme/SceneRenderer.kt:22-34 | Starts in CREATE mode with no blocks, no drawing block and no highlight. |
| LegacyRenderer.SceneRenderer.SetMode | core/src/main/kotlin/com/gadarts/fme/SceneRenderer.kt:100-108 | setMode stores the given mode. |
| LegacyRenderer.SceneRenderer.KeyDown | core/src/main/kotlin/com/gadarts/fme/SceneRenderer.kt:116-118 | keyDown always returns false. |
| LegacyRenderer.SceneRenderer.KeyUp | core/src/main/kotlin/com/gadarts/fme/SceneRenderer.kt:120-122 | keyUp always returns false. |
| LegacyRenderer.SceneRenderer.KeyTyped | core/src/main/kotlin/com/gadarts/fme/SceneRenderer.kt:124-126 | keyTyped always returns false. |
| LegacyRenderer.SceneRenderer.TouchDown | core/src/main/kotlin/com/gadarts/fme/SceneRenderer.kt:130-139 | CREATE runs applyCreate and SELECT_FACE runs applySelectFace, both returning true. Any other mode returns false, and each branch leaves the other mode's state alone. |
| LegacyRenderer.SceneRenderer.ApplySelectFace | core/src/main/kotlin/com/gadarts/fme/SceneRenderer.kt:141-163 | The strict-minimum bbox-centre block's hit face becomes the highlight, drawn with the identity transform. With no block or no triangle hit, the highlight is unchanged. |
| LegacyRenderer.SceneRenderer.ApplyCreate | core/src/main/kotlin/com/gadarts/fme/SceneRenderer.kt:280-294 | On a plane hit, a new instance sharing the cube mesh is placed at the truncated point, which becomes the anchor. On a miss nothing changes. |
| LegacyRenderer.SceneRenderer.TouchUp | core/src/main/kotlin/com/gadarts/fme/SceneRenderer.kt:325-336 | Commits exactly one block and clears drawingBlock when there is one. Otherwise it returns false with the blocks unchanged. |
| LegacyRenderer.SceneRenderer.TouchDragged | core/src/main/kotlin/com/gadarts/fme/SceneRenderer.kt:351-371 | No-op returning false without a drawing block or a hit. Otherwise the transform is the anchor scaled by the \|Δ\| > 1 rule. |
| LegacyFaces.WorldVertices | core/src/main/kotlin/com/gadarts/fme/FacesHandler.kt:86-93 | One world position per selected index, in order. |
| LegacyFaces.LocalVertices | core/src/main/kotlin/com/gadarts/fme/FacesHandler.kt:86-93 | One local (buffer) position per selected index, in order. |
| LegacyFaces.FaceIsWorldVertices | core/src/main/kotlin/com/gadarts/fme/FacesHandler.kt:168-209 | The hit rectangle's six vertices are the world positions of the face's six index slots. |
| LegacyFaces.SelectionCorners | core/src/main/kotlin/com/gadarts/fme/FacesHandler.kt:55-64 | The rectangle's distinct corners are no more than the selected indices. |
| LegacyFaces.SeparatedSelectionCorners | core/src/main/kotlin/com/gadarts/fme/FacesHandler.kt:55-64 | When distinct indices sit at distinct places, the rectangle's distinct corners are exactly the world vertices of the selected indices. |
| LegacyFaces.CubeFaceHasFourCorners | core/src/main/kotlin/com/gadarts/fme/FacesHandler.kt:128-134 | On the cube's index table, a hit face selects exactly 4 vertex indices. |
| LegacyFaces.CreateRectangleHighlight | core/src/main/kotlin/com/gadarts/fme/FacesHandler.kt:212-254 | Throws (null) iff not given exactly 4 vertices. Otherwise the fresh buffer is the flattened vertices and unflattens back to them. |
| LegacyFaces.DragAmount | core/src/main/kotlin/com/gadarts/fme/FacesHandler.kt:273-275 | The move is -deltaY/100: positive iff the cursor moved up, zero iff it did not move. |
| LegacyFaces.DragStepsAdd | core/src/main/kotlin/com/gadarts/fme/FacesHandler.kt:273-278 | Because lastScreenY is updated after each drag, the amounts of consecutive drags add up to the amount of the whole drag. |
| LegacyFaces.MovedTwice | core/src/main/kotlin/com/gadarts/fme/FacesHandler.kt:301-306 | Two moves of the same vertices compose into one move by the sum. |
| LegacyFaces.LocalDirectionAdd | core/src/main/kotlin/com/gadarts/fme/FacesHandler.kt:297-299 | Local moves add up as the world moves do. |
| LegacyFaces.DragComposes | core/src/main/kotlin/com/gadarts/fme/FacesHandler.kt:265-284 | Two successive drags move the face exactly as one drag over the whole distance. |
| LegacyFaces.HighlightAsWritten | core/src/main/kotlin/com/gadarts/fme/FacesHandler.kt:86-95 | As written, the highlight buffer holds the LOCAL positions of the first four selected vertices. |
| LegacyFaces.HighlightCorrected | core/src/main/kotlin/com/gadarts/fme/FacesHandler.kt:86-95 | Corrected, the highlight buffer holds the WORLD positions of the first four selected vertices. |
| LegacyFaces.HighlightAsWrittenMisplaced | core/src/main/kotlin/com/gadarts/fme/FacesHandler.kt:86-95 | With a translated block, the as-written highlight is offset from the face by exactly the translation, so it is drawn in the wrong place. |
| LegacyFaces.WorldVerticesFollowMove | core/src/main/kotlin/com/gadarts/fme/FacesHandler.kt:286-309 | After a face move, each selected world vertex is shifted by exactly the world move. |
| LegacyFaces.CorrectedRedrawsSelection | core/src/main/kotlin/com/gadarts/fme/FacesHandler.kt:55-96 | The corrected refresh redraws exactly the rectangle that selection built. |
| LegacyFaces.Outcome | core/src/main/kotlin/com/gadarts/fme/FacesHandler.kt:39-71 | Defines what a press comes to: missed, not a quad, or a quad. A quad's block is one of the blocks, and it has four corners. `OutcomeQuad` specifies it. |
| LegacyFaces.OutcomeQuad | core/src/main/kotlin/com/gadarts/fme/FacesHandler.kt:39-71 | A four-corner selection picks the closest block and its hit face's indices, and the highlight is the face's distinct corners. |
| LegacyFaces.SelectQuad | core/src/main/kotlin/com/gadarts/fme/FacesHandler.kt:39-68 | It throws iff a rectangle is hit whose distinct corners are not four. Otherwise it returns the block, the face indices and a fresh highlight buffer. |
| LegacyFaces.FillHighlightVertices | core/src/main/kotlin/com/gadarts/fme/FacesHandler.kt:80-93 | The loop copies the position floats of the first four distinct selected vertices from the block's local buffer. The result is `HighlightAsWritten` of that buffer. |
| LegacyFaces.FacesHandler.constructor | core/src/main/kotlin/com/gadarts/fme/FacesHandler.kt:256-260 | Starts with nothing selected, no highlight, moveAlongY false, lastScreenY 0 and not dragging. |
| LegacyFaces.FacesHandler.KeyDown | core/src/main/kotlin/com/gadarts/fme/FacesHandler.kt:311-317 | ALT_LEFT sets moveAlongY and returns true. Any other key returns false with the flag unchanged. |
| LegacyFaces.FacesHandler.KeyUp | core/src/main/kotlin/com/gadarts/fme/FacesHandler.kt:319-325 | ALT_LEFT clears moveAlongY and returns true. Any other key returns false with the flag unchanged. |
| LegacyFaces.FacesHandler.ApplySelectFace | core/src/main/kotlin/com/gadarts/fme/FacesHandler.kt:39-71 | On success, connectedVertices = selectedFaceIndices, lastScreenY = screenY and isDragging = false, with a fresh highlight. A miss, or a face without four corners (which throws), leaves all selection and drag state as it was. |
| LegacyFaces.FacesHandler.MoveSelectedFace | core/src/main/kotlin/com/gadarts/fme/FacesHandler.kt:286-309 | Only the position slots of the connected vertices move, by the local form of the y move. A non-invertible transform throws and nothing changes. |
| LegacyFaces.FacesHandler.UpdateHighlightVertices | core/src/main/kotlin/com/gadarts/fme/FacesHandler.kt:73-96 | The highlight buffer holds `HighlightAsWritten` of the block's buffer: the LOCAL positions of the selected face's first four vertices, as the source writes them. `HighlightAsWrittenMisplaced` shows where that lands. |
| LegacyFaces.FacesHandler.TouchDragged | core/src/main/kotlin/com/gadarts/fme/FacesHandler.kt:265-284 | Returns false and changes nothing unless a highlight exists and moveAlongY is set. The first accepted drag only records lastScreenY and sets isDragging. A later drag moves the face by DragAmount(screenY - lastScreenY), records screenY and rewrites the highlight as `HighlightAsWritten` of the moved local buffer. |
| ModeFaces.KeyAxis | core/src/main/kotlin/com/gadarts/fme/ModeFacesHandler.kt:26-44 | 'x'/'X', 'y'/'Y' and 'z'/'Z' give their axis. Each iff is stated in both directions, so every other character gives none. |
| ModeFaces.KeyDelta | core/src/main/kotlin/com/gadarts/fme/ModeFacesHandler.kt:48-53 | UP gives +1, DOWN gives -1, and every other key gives 0. |
| ModeFaces.Displacement | core/src/main/kotlin/com/gadarts/fme/ModeFacesHandler.kt:55-61 | The move has the delta on the selected axis and 0 on the other two. |
| ModeFaces.HighlightOf | core/src/main/kotlin/com/gadarts/fme/ModeFacesHandler.kt:103-112 | One point per selected index, in order. |
| ModeFaces.CollectHighlight | core/src/main/kotlin/com/gadarts/fme/ModeFacesHandler.kt:97-112 | The loop collects exactly those points. |
| ModeFaces.HighlightCoversFace | core/src/main/kotlin/com/gadarts/fme/ModeFacesHandler.kt:92-114 | The highlight's points are exactly the points of the hit face's rectangle. |
| ModeFaces.HighlightIsFace | core/src/main/kotlin/com/gadarts/fme/ModeFacesHandler.kt:103-112 | Indices equal as a set to a face's slots give exactly that face's points. |
| ModeFaces.HighlightInFace | core/src/main/kotlin/com/gadarts/fme/ModeFacesHandler.kt:103-112 | Each highlight point is a point of the face. |
| ModeFaces.FaceInHighlight | core/src/main/kotlin/com/gadarts/fme/ModeFacesHandler.kt:103-112 | Each face point named in the set is in the highlight. |
| ModeFaces.SelectedFace | core/src/main/kotlin/com/gadarts/fme/ModeFacesHandler.kt:92-115 | The face indices are getLastHitFaceIndices. A highlight is built only when the set is non-empty. |
| ModeFaces.ModeFacesHandler.constructor | core/src/main/kotlin/com/gadarts/fme/ModeFacesHandler.kt:20-24 | Starts with nothing selected, no axis and no highlight. |
| ModeFaces.ModeFacesHandler.KeyTyped | core/src/main/kotlin/com/gadarts/fme/ModeFacesHandler.kt:26-44 | Handled iff the character names an axis, which it then selects. Otherwise selectedAxis is unchanged. |
| ModeFaces.ModeFacesHandler.MoveSelectedFace | core/src/main/kotlin/com/gadarts/fme/ModeFacesHandler.kt:195-218 | Adds the same local move to exactly the connected vertices. It does nothing without a selected block, and a non-invertible transform throws with nothing changed. |
| ModeFaces.ModeFacesHandler.KeyDown | core/src/main/kotlin/com/gadarts/fme/ModeFacesHandler.kt:46-68 | A no-op returning false unless a highlight exists, an axis is set and the key is UP or DOWN. Otherwise the connected vertices move by the delta on that axis. |
| ModeFaces.ModeFacesHandler.ApplySelectFace | core/src/main/kotlin/com/gadarts/fme/ModeFacesHandler.kt:70-118 | The highlight is reset first, and a pick never changes selectedAxis. A miss leaves the block and both index sets unchanged. A hit selects the nearest block, sets connectedVertices = selectedFaceIndices, and highlights only a non-empty face. |
| Renderer.RestoredData | core/src/main/kotlin/com/gadarts/fme/sr/SceneRenderer.kt:181-213 | The rebuilt buffer has 48 floats. |
| Renderer.RecordOf | core/src/main/kotlin/com/gadarts/fme/sr/SceneRenderer.kt:116-134 | The record holds the block's translation and, in order, the n positions read at i * stride + posOffset. |
| Renderer.SaveRestored | core/src/main/kotlin/com/gadarts/fme/sr/SceneRenderer.kt:116-135 | Saving a block restored from a record of 8 positions writes back that record (translation and 8 positions in order). So save after load after save reproduces each block's record. |
| Renderer.RestoreCube | core/src/main/kotlin/com/gadarts/fme/sr/SceneRenderer.kt:202-213 | A never-edited cube restores to exactly its original buffer, normals included. |
| Renderer.Loadable | core/src/main/kotlin/com/gadarts/fme/sr/SceneRenderer.kt:151-164 | The leading records with 8 positions are the ones restored before createModelFromVertices throws. |
| Renderer.LoadableStep | core/src/main/kotlin/com/gadarts/fme/sr/SceneRenderer.kt:151-164 | A good record after the restored prefix extends it by one. |
| Renderer.RestoredBoundsAgree | core/src/main/kotlin/com/gadarts/fme/sr/SceneRenderer.kt:159-161 | A restored block's stored bounds equal the bounds computed from the block itself. |
| Renderer.CreateModelFromVertices | core/src/main/kotlin/com/gadarts/fme/sr/SceneRenderer.kt:167-216 | Fails iff not given 8 positions. Otherwise it builds a fresh cube mesh whose positions are the given ones, whose normals are recomputed, and whose index table is untouched. |
| Renderer.SaveBlock | core/src/main/kotlin/com/gadarts/fme/sr/SceneRenderer.kt:117-134 | A block's record is its translation plus its numVertices positions, read at i * stride + posOffset. |
| Renderer.RestoreBlock | core/src/main/kotlin/com/gadarts/fme/sr/SceneRenderer.kt:152-163 | A record rebuilds into a fresh block iff it has 8 positions. |
| Renderer.RestoreNext | core/src/main/kotlin/com/gadarts/fme/sr/SceneRenderer.kt:152-163 | One iteration appends exactly one restored block for a good record, and appends nothing when the record is bad. |
| Renderer.SceneRenderer.constructor | core/src/main/kotlin/com/gadarts/fme/sr/SceneRenderer.kt:22-25 | The initial mode is CREATE and the shared block list is empty. |
| Renderer.SceneRenderer.SetMode | core/src/main/kotlin/com/gadarts/fme/sr/SceneRenderer.kt:45-48 | setMode stores the given mode. |
| Renderer.SceneRenderer.KeyDown | core/src/main/kotlin/com/gadarts/fme/sr/SceneRenderer.kt:50-55 | Forwarded only in FACES mode; any other mode returns false. |
| Renderer.SceneRenderer.KeyUp | core/src/main/kotlin/com/gadarts/fme/sr/SceneRenderer.kt:57-59 | keyUp always returns false. |
| Renderer.SceneRenderer.KeyTyped | core/src/main/kotlin/com/gadarts/fme/sr/SceneRenderer.kt:61-66 | Handled iff the mode is FACES and the character names an axis. |
| Renderer.SceneRenderer.TouchDown | core/src/main/kotlin/com/gadarts/fme/sr/SceneRenderer.kt:70-79 | Handled iff the mode is not CAMERA. CREATE touches only the drawing handler and FACES only the face handler. |
| Renderer.SceneRenderer.TouchUp | core/src/main/kotlin/com/gadarts/fme/sr/SceneRenderer.kt:85-87 | In every mode, commits the drawing block: exactly one block is appended iff there was one. |
| Renderer.SceneRenderer.TouchDragged | core/src/main/kotlin/com/gadarts/fme/sr/SceneRenderer.kt:94-99 | Handled iff the mode is CREATE and the drawing handler accepts the drag. |
| Renderer.SceneRenderer.Save | core/src/main/kotlin/com/gadarts/fme/sr/SceneRenderer.kt:114-139 | One record per block, in block order. |
| Renderer.SceneRenderer.Load | core/src/main/kotlin/com/gadarts/fme/sr/SceneRenderer.kt:141-165 | Clears the list, then appends one restored block per record in record order. It throws at the first record without 8 positions. |

## Left out

- Floating point. Positions, distances and scales are exact reals: there is no rounding,
  and no `Float.MAX_VALUE` sentinel (an absent best candidate stands for it), so `0.01f`
  is exactly one hundredth.
- `Vector3.nor()` (a square root). Normals are the unnormalised sums of triangle cross
  products. `MeshUtils.FaceNormalsOutward` proves each cube cross product is already of
  unit length, and `Drawing.AxisClampScale` proves the clamp ignores the length.
- The normalising loop at core/src/main/kotlin/com/gadarts/fme/utils/MeshUtils.kt:61-64
  is not modelled, because of the square root. For the same reason the recomputed
  normals of `createModelFromVertices` are the unnormalised sums.
- `epsilonEquals(0.0001)` in `getUniqueRectangleVertices`. It is modelled as exact
  equality, because a tolerance-based equality is not transitive and the first-occurrence
  rule is what is stated.
- The libGDX intersectors (`intersectRayTriangle`, `intersectRayPlane`,
  `intersectRayBoundsFast`) and `camera.getPickRay`. They are foreign float code and are
  the `Pick` oracle.
- `Matrix4` rotation and general products. Transforms are translation plus scale, and a
  node's `globalTransform` is a `Transform` field of the instance.
- `prj(transform.inv())` of a singular matrix. It is modelled as a throw, and only the xz
  scales can be zero.
- The 16-bit width of `ShortArray` indices, and `Int` overflow of
  `screenY - lastScreenY`. Integers are unbounded.
- Rendering: `ModelBatch`, materials, environment, camera, `render`, `dispose`, the
  `InputMultiplexer` and camera-controller wiring in `setMode`/`init`, and GPU mesh
  objects.
- `glFrontFace`. The root `DrawingHandler` keeps the winding it would pass to OpenGL
  (the as-written choice) in a `frontFace` field.
- The `ModelBuilder` box of the root `SceneRenderer`'s `createCubeModel`. It is given to
  the constructor; only its node offset of 0.5 (`LegacyRenderer.CubeNode`) is modelled.
- Materials, node parts and model cloning beyond the vertex and index data.
- `touchCancelled`, `mouseMoved` and `scrolled`. They only return false.
- Gson JSON and `Gdx.files`. `save` returns the records and `load` takes them.
- The `HighlightHandler` that `ModeFacesHandler` constructs without arguments (with
  `reset`, `highlight`, `updateHighlightVertices` and a public
  `highlightedTriangleInstance`). That class is not part of this model: the root
  HighlightHandler.kt has a different constructor and none of those methods. Its state is
  the `highlight` field of `ModeFaces.ModeFacesHandler`, and the refresh after a key move
  is not modelled.
- The highlight `ModelInstance` of the root `FacesHandler`. It is its position buffer,
  `highlightedMesh`.
- Renderer.SceneRenderer.KeyDown: states only the routing (not handled outside FACES
  mode). What the face handler then does is the contract of
  `ModeFaces.ModeFacesHandler.KeyDown`.
- Renderer.SceneRenderer.TouchDown: states only the routing and which handler is left
  unchanged. The effects are the contracts of `Drawing.DrawingHandler.ApplyCreate` and
  `ModeFaces.ModeFacesHandler.ApplySelectFace`.
- Renderer.SceneRenderer.TouchDragged: states only whether the drag is handled. The
  resize is the contract of `Drawing.DrawingHandler.TouchDragged`.
- Renderer.SceneRenderer.KeyTyped: states only whether the key is handled. The axis
  update is the contract of `ModeFaces.ModeFacesHandler.KeyTyped`.

## Findings

| source | as written | input that shows it | evidently intended | confidence | as-written member | corrected member |
|---|---|---|---|---|---|---|
| core/src/main/kotlin/com/gadarts/fme/DrawingHandler.kt:262-268 | The winding is set to clockwise when `scaleX < 0 \|\| scaleZ < 0` | A drag from (5,0,5) to (2,0,2) gives scale (-3, 1, -3). That transform does not mirror, yet the winding is flipped | Clockwise exactly when the transform mirrors, i.e. when exactly one of the two scales is negative | not executed | LegacyDrawing.FlipsAsWrittenDoubleNegative | LegacyDrawing.FlipsCorrectedMirrors |
| core/src/main/kotlin/com/gadarts/fme/FacesHandler.kt:86-95 | `updateHighlightVertices` writes the LOCAL buffer positions of the selected vertices, yet the highlight is drawn with the identity transform (FacesHandler.kt:59) | Any block not at the origin, e.g. translated by (1,0,0): after a drag the highlight is drawn 1 unit away from the face | The world positions, as `applySelectFace` builds them from `getHitRectangle` | not executed | LegacyFaces.HighlightAsWrittenMisplaced | LegacyFaces.CorrectedRedrawsSelection |

The handlers model the code as written:
- `LegacyFaces.FacesHandler.UpdateHighlightVertices` and
  `LegacyFaces.FacesHandler.TouchDragged` write `LegacyFaces.HighlightAsWritten`.
- `LegacyDrawing.DrawingHandler.TouchDragged` chooses the winding with
  `LegacyDrawing.FlipsAsWritten`.

The corrections are stated and proved beside them.
- Winding: `LegacyDrawing.FlipsCorrected`, with `LegacyDrawing.FlipsCorrectedMirrors`.
  `LegacyDrawing.FlipsAsWrittenMirrors` says which drags the two disagree on.
- Highlight: `LegacyFaces.HighlightCorrected`, with `LegacyFaces.CorrectedRedrawsSelection`.
