# Voxel surface extraction and renderer control (opengl_physics)

This project models the host-side integer logic of the bouncy-cube voxel demo in Dafny.

- **`arrayND`** (`NDArray`, from arrayND.hpp) is a row-major N-dimensional array over a flat vector. The first index varies fastest.
  - Its index/coordinate conversions are specified by the Horner form `c0 + s0*(c1 + s1*(c2 + ...))`.
  - `coord2ind` throws `out_of_range`; that throw is modelled as a `Result`.
  - The class keeps the backing vector as a `seq` field. Its constructors, `total`, `ind2coord`, `coord2ind`, the coordinate subscript, the chained `a[x][y][z]` subscript and both `inBounds` overloads are methods proved against the specification functions.
- **`VoxelStorage`** (`Voxels`, with its specification in `VoxelSpec`) takes a 3-D occupancy grid. `setCubes` turns it into four outputs:
  - the cube list in linear scan order, with six-way neighbour links;
  - the surface corners, each with its eight surrounding-cube slots;
  - four corner indices per exposed cube face;
  - the owning cube of every face.

  `setCubes` and `getEBO` are imperative methods whose loops are proved to produce exactly what the `VoxelSpec` functions describe. The properties of the extracted surface are proved as lemmas about those functions:
  - links are symmetric;
  - the corner rule holds;
  - there are four corners per face and every face corner exists;
  - face owners are ordered;
  - an isolated cube has six faces.
- **`OneCube`** works one instance through the extraction: a single occupied cell at the origin of a 2x2x2 grid gives one unlinked cube, the eight corners of its unit box and six faces whose 24 corner indices are stated one by one.
- **`VoxelRendererImpl`** (`Renderer`) contributes only its integer control logic:
  - the pause and single-step switches and the P and '.' keys;
  - the number and order of physics dispatches in `doPhysics`, which ping-pong between the two buffer sets;
  - the picker's colour-to-face-id decode;
  - the click state that `mouseUp` resets.

The occupancy grid is an arbitrary input. Cube positions are integer coordinates; the source stores them in float vectors, which hold such small integers exactly.

## Model

| member | source | states |
|---|---|---|
| NDArray.CoordToIndex | opengl_physics/arrayND.hpp:96-105 | `coord2ind` succeeds iff every coordinate is below its extent; the index is then the first-fastest Horner position and below the total |
| NDArray.IndexToCoord | opengl_physics/arrayND.hpp:88-95 | `ind2coord` yields one coordinate per dimension, each below its extent |
| NDArray.IndexRoundTrip | opengl_physics/arrayND.hpp:88-105 | for every i below the total, `ind2coord(i)` is in bounds and converts back to i |
| NDArray.CoordRoundTrip | opengl_physics/arrayND.hpp:88-105 | for every in-bounds coordinate c, `ind2coord(coord2ind(c)) == c` |
| NDArray.LinearizeInjective | opengl_physics/arrayND.hpp:96-105 | two in-bounds coordinates with the same linear index are equal |
| NDArray.LinearizeBelowProduct | opengl_physics/arrayND.hpp:96-105 | an in-bounds coordinate's linear index is below `total()` |
| NDArray.ProductPositive | opengl_physics/arrayND.hpp:78-84 | the total of positive extents is positive |
| NDArray.BelowProductPositive | opengl_physics/arrayND.hpp:78-84 | if some index is below the total, every extent is positive |
| NDArray.StepDownStride | opengl_physics/arrayND.hpp:96-105 | one step down axis j lowers the linear index by exactly the stride of axis j (the product of the earlier extents) |
| NDArray.ScanOrder | opengl_physics/arrayND.hpp:96-105 | the cell one step down any axis has a smaller linear index |
| NDArray.ArrayND.constructor | opengl_physics/arrayND.hpp:59-63 | `arrayND(sizes)`: backing vector of exactly `total()` elements |
| NDArray.ArrayND.Filled | opengl_physics/arrayND.hpp:64-69 | `arrayND(sizes, initValue)`: `total()` elements, each equal to `initValue` |
| NDArray.ArrayND.Copy | opengl_physics/voxels.cpp:51-56 | the copy the `VoxelStorage` constructor makes has the same extents and elements |
| NDArray.ArrayND.Total | opengl_physics/arrayND.hpp:78-84 | the accumulating loop returns the product of the extents |
| NDArray.ArrayND.Ind2Coord | opengl_physics/arrayND.hpp:88-95 | the remainder/divide loop returns `IndexToCoord(sizes, i)` |
| NDArray.ArrayND.Coord2Ind | opengl_physics/arrayND.hpp:96-105 | the stride loop returns `CoordToIndex(sizes, coords)`, including the out-of-range error |
| NDArray.ArrayND.Get | opengl_physics/arrayND.hpp:106-108 | reading `a[coord]` succeeds iff coord is in bounds and yields the element at `coord2ind(coord)` |
| NDArray.ArrayND.Put | opengl_physics/arrayND.hpp:106-108 | writing `a[coord]` changes only the element at `coord2ind(coord)`; an out-of-range write changes nothing; sizes are unchanged |
| NDArray.ArrayND.ChainedIndex | opengl_physics/arrayND.hpp:39-48 | the last chained subscript computes the Horner position of all gathered indices, with no bounds check (the earlier subscripts only gather indices: `Select` for `arrayND::operator[]`, `SubArray.Then` for `subArray::operator[]`) |
| NDArray.ArrayND.ChainedGet | opengl_physics/arrayND.hpp:22-48 | reading `a[x][y]...[z]` yields the element at that unchecked position |
| NDArray.ArrayND.ChainedPut | opengl_physics/arrayND.hpp:22-48 | writing `a[x][y]...[z]` changes only the element at that unchecked position |
| NDArray.ArrayND.InBoundsCoord | opengl_physics/arrayND.hpp:109-114 | `inBounds(coord)` iff every component is below its extent |
| NDArray.ArrayND.InBoundsIndex | opengl_physics/arrayND.hpp:115-117 | `inBounds(i)` iff 0 <= i < `total()` |
| NDArray.ChainedMatchesCoord | opengl_physics/arrayND.hpp:39-48 | for in-bounds indices, the chained subscript addresses the same element as `coord2ind` |
| NDArray.ChainedAliases | opengl_physics/arrayND.hpp:39-48 | an out-of-bounds chained subscript (`[2][0][0]` in a 2x2x2 array) that `coord2ind` rejects silently aliases another element (`{0,1,0}`) |
| VoxelSpec.Selected | opengl_physics/voxels.cpp:65-73 | the listed positions are strictly increasing, flagged and below the bound |
| VoxelSpec.SelectedMembers | opengl_physics/voxels.cpp:65-73 | a position is listed iff it is flagged and below the bound |
| VoxelSpec.IndexOf | opengl_physics/voxels.cpp:65-73 | the index map holds -1 exactly at unflagged cells; otherwise it holds the cell's place in the list |
| VoxelSpec.CubePos | opengl_physics/voxels.cpp:69-70 | cube k's position is an in-grid coordinate whose linear index is the k-th occupied cell |
| VoxelSpec.CubePosCoord | opengl_physics/voxels.cpp:69-70 | that position is `ind2coord` of the cube's cell |
| VoxelSpec.CubeAt | opengl_physics/voxels.cpp:65-73 | the cube at a coordinate is -1 iff the coordinate is outside the grid or its cell is empty; otherwise it is a valid cube index |
| VoxelSpec.CubeOrder | opengl_physics/voxels.cpp:65-73 | cube k is the k-th occupied cell in linear order, and every occupied cell is some cube |
| VoxelSpec.CubeAtPos | opengl_physics/voxels.cpp:65-73 | the cube found at a coordinate has that coordinate as its position |
| VoxelSpec.CubeAtCubePos | opengl_physics/voxels.cpp:65-73 | looking up cube k's position finds cube k |
| VoxelSpec.CubeIndexMapAt | opengl_physics/voxels.cpp:65-73 | `indexMap` at an in-grid coordinate holds the cube there, or -1 |
| VoxelSpec.LinksSymmetric | opengl_physics/voxels.cpp:76-87 | for j < 3, `neighbors[j]` of a is b iff `neighbors[j+3]` of b is a, iff b sits one step down axis j from a |
| VoxelSpec.LinksComplete | opengl_physics/voxels.cpp:76-87 | links correct for every cutoff up to the end of the scan equal the final link table |
| VoxelSpec.NewCubeUnlinked | opengl_physics/voxels.cpp:71 | a cube has no links yet when it is appended |
| VoxelSpec.LinksAppend | opengl_physics/voxels.cpp:67-73 | appending a fresh unlinked cube keeps the partial link table correct |
| VoxelSpec.LinksStep | opengl_physics/voxels.cpp:83-84 | linking the new cube with its down-neighbour on axis j and back-patching that neighbour's `j+3` slot advances the partial link table by one axis |
| VoxelSpec.AxisEdge | opengl_physics/voxels.cpp:77 | on the grid's lower face along axis j nothing is linked and the table stays correct |
| VoxelSpec.AxisEmpty | opengl_physics/voxels.cpp:79-81 | an empty down-neighbour leaves the table correct |
| VoxelSpec.AxisLinked | opengl_physics/voxels.cpp:79-85 | an occupied down-neighbour has an already-listed smaller cube index (the assert at line 82), and linking both ways keeps the table correct |
| VoxelSpec.CubeAppended | opengl_physics/voxels.cpp:68-73 | an occupied cell extends the position list by its coordinate and records its index in `indexMap` |
| VoxelSpec.CellSkipped | opengl_physics/voxels.cpp:67-68 | an empty cell changes neither list |
| VoxelSpec.CornerSlots | opengl_physics/voxels.cpp:102-113 | each corner has eight slots |
| VoxelSpec.SlotRead | opengl_physics/voxels.cpp:102-113 | slot i of corner (x,y,z) is -1 for an out-of-range cell; otherwise it is the `indexMap` entry at cell (x-!(i&1), y-!(i&2), z-!(i&4)) |
| VoxelSpec.CornerVisit | opengl_physics/voxels.cpp:95-119 | a lattice point is a corner iff its slots are mixed, and then the next listed corner carries those slots |
| VoxelSpec.CornerRule | opengl_physics/voxels.cpp:95-119 | the corner rule holds at every lattice point (x,y,z) with each component at most the grid size |
| VoxelSpec.CornerPos | opengl_physics/voxels.cpp:95-119 | every listed corner is a mixed lattice point, listed at its linear position |
| VoxelSpec.CornerIndexAt | opengl_physics/voxels.cpp:115-117 | `cornerIndexMap` at a lattice point is -1 iff its slots are not mixed; otherwise it is a valid corner index |
| VoxelSpec.CornerIndexPos | opengl_physics/voxels.cpp:115-117 | the corner index recorded at a lattice point names a corner at that point |
| VoxelSpec.CornerIndexMapAt | opengl_physics/voxels.cpp:91-117 | `cornerIndexMap` at a lattice point holds that point's corner index |
| VoxelSpec.CornerOrder | opengl_physics/voxels.cpp:95-119 | corners are listed in increasing lattice order, and each carries its own slots |
| VoxelSpec.FaceCorner | opengl_physics/voxels.cpp:128-129 | face corner m of side d lies in the cube's unit box and on the side's plane: axis d%3 is advanced by d/3 |
| VoxelSpec.FaceStep | opengl_physics/voxels.cpp:145-151 | the source's in-place walk around the quad visits c, c+e1, c+e1+e2, c+e2 |
| VoxelSpec.FaceQuadAt | opengl_physics/voxels.cpp:145-151 | every corner of an open face has a non-negative `cornerIndexMap` entry, and the quad is those four entries |
| VoxelSpec.MixedCorner | opengl_physics/voxels.cpp:102-119 | a lattice point touching both a cube and an empty or out-of-range cell is a corner |
| VoxelSpec.FaceCornerExists | opengl_physics/voxels.cpp:145-151 | each corner of an open face is a listed corner at that lattice point |
| VoxelSpec.CubeFacesExist | opengl_physics/voxels.cpp:145-151 | every index a cube pushes into `faceIndices` names a listed corner |
| VoxelSpec.FaceIndicesExist | opengl_physics/voxels.cpp:122-156 | no entry of `faceIndices` is -1 or out of range |
| VoxelSpec.CubeFacesFour | opengl_physics/voxels.cpp:145-153 | a cube pushes four indices per face |
| VoxelSpec.FacesFour | opengl_physics/voxels.cpp:157 | `faceCubes.size()*4 == faceIndices.size()` |
| VoxelSpec.CubeOwnersSame | opengl_physics/voxels.cpp:153 | each face a cube emits is owned by that cube |
| VoxelSpec.OwnersOrdered | opengl_physics/voxels.cpp:122-157 | `faceCubes` holds cubes already visited, in non-decreasing order |
| VoxelSpec.OwnsFaceIffOpen | opengl_physics/voxels.cpp:126-127 | a cube owns a face iff one of its neighbour slots is -1 |
| VoxelSpec.IsolatedCube | opengl_physics/voxels.cpp:122-157 | a cube with six open sides owns exactly six faces |
| VoxelSpec.IsolatedCubeFaces | opengl_physics/voxels.cpp:122-157 | an isolated cube contributes 24 face indices |
| VoxelSpec.FacesRead | opengl_physics/voxels.cpp:122-157 | reading the quads through `cornerIndexMap` and `cubesPos` yields the specified face indices |
| VoxelSpec.QuadsReadable | opengl_physics/voxels.cpp:145-151 | every open face of every cube has its four corners mapped |
| VoxelSpec.LinksSixSided | opengl_physics/voxels.cpp:21-30 | every cube's link entry has six slots |
| VoxelSpec.OpenIffMissing | opengl_physics/voxels.cpp:164-165 | a -1 among a cube's links iff one of its sides is open |
| VoxelSpec.ExposedCubes | opengl_physics/voxels.cpp:161-172 | exactly the cubes with an open side, in strictly increasing order |
| VoxelSpec.ExposedOwnFaces | opengl_physics/voxels.cpp:161-172 | the cubes `getEBO` lists are exactly those that own a face |
| VoxelSpec.LatticeLin | opengl_physics/voxels.cpp:95-117 | the z/y/x loop nest visits lattice points in linear order, and the chained `cornerIndexMap[x][y][z]` addresses that point |
| VoxelSpec.LatticeCarry | opengl_physics/voxels.cpp:95-97 | at the end of each row and plane the loop nest continues at the next linear position, ending at the total |
| Voxels.VoxelStorage.constructor | opengl_physics/voxels.cpp:51-56 | copies the grid, then every list equals what extraction computes from it |
| Voxels.VoxelStorage.SetCubes | opengl_physics/voxels.cpp:60-158 | afterwards `cubesPos`, `cubesData`, `vertsNeighbors`, `faceIndices` and `faceCubes` equal the specification of the grid |
| Voxels.VoxelStorage.ScanCubes | opengl_physics/voxels.cpp:65-89 | the cube scan yields the positions, the final symmetric links and the index map, and leaves the other lists alone |
| Voxels.VoxelStorage.ScanCell | opengl_physics/voxels.cpp:68-88 | one cell of the scan keeps the scan invariant |
| Voxels.VoxelStorage.LinkDown | opengl_physics/voxels.cpp:76-87 | the three-axis link loop advances the partial link table past the cell |
| Voxels.VoxelStorage.LinkAxis | opengl_physics/voxels.cpp:77-86 | one axis of the link loop advances the partial link table by one axis |
| Voxels.VoxelStorage.FindCorners | opengl_physics/voxels.cpp:91-119 | produces `vertsNeighbors == CornerList` and the corner index map |
| Voxels.VoxelStorage.ScanLattice | opengl_physics/voxels.cpp:95-119 | the full loop nest lists every corner |
| Voxels.VoxelStorage.ScanRow | opengl_physics/voxels.cpp:97-119 | one row of the loop nest keeps the corner scan invariant |
| Voxels.VoxelStorage.VisitCorner | opengl_physics/voxels.cpp:98-118 | one lattice point keeps the corner scan invariant |
| Voxels.VoxelStorage.RecordCorner | opengl_physics/voxels.cpp:115-118 | a mixed point is appended and its index recorded; other points get -1 |
| Voxels.VoxelStorage.GatherSlots | opengl_physics/voxels.cpp:99-113 | the slots are the corner's `CornerSlots`, and the two flags say all slots full and all slots empty |
| Voxels.VoxelStorage.ReadSlot | opengl_physics/voxels.cpp:103-110 | one slot reads the cube index of its cell, -1 when the cell is out of range |
| Voxels.VoxelStorage.MakeFaces | opengl_physics/voxels.cpp:122-156 | appends four corner indices and one owner per open face, cube by cube |
| Voxels.VoxelStorage.AddCubeFaces | opengl_physics/voxels.cpp:123-155 | one cube appends its faces' quads and its owner entries |
| Voxels.VoxelStorage.FaceCorners | opengl_physics/voxels.cpp:128-151 | the quad of side j is read from `cornerIndexMap` at the four face corners |
| Voxels.VoxelStorage.GetEBO | opengl_physics/voxels.cpp:161-172 | returns exactly the cubes with a -1 link, in increasing order and without duplicates; on a storage whose lists match its grid, these are the grid's exposed cubes and exactly the cubes listed as face owners |
| Voxels.VoxelStorage.ExposedAreOwners | opengl_physics/voxels.cpp:122-172 | on a storage whose lists match its grid, a cube has an open side iff it owns a face |
| OneCube.OnlyOriginCube | opengl_physics/voxels.cpp:65-73 | in the 2x2x2 grid occupied only at (0,0,0), the cube lookup finds a cube at (0,0,0) and nowhere else |
| OneCube.OriginCubes | opengl_physics/voxels.cpp:65-89 | that grid yields one cube, at (0,0,0), with all six links -1 |
| OneCube.OriginCorner | opengl_physics/voxels.cpp:95-119 | a lattice point of that grid is a surface corner iff it is a corner of the cube's unit box |
| OneCube.OriginCorners | opengl_physics/voxels.cpp:91-119 | that grid yields eight corners, the points of {0,1}^3, in scan order (lattice positions 0, 1, 3, 4, 9, 10, 12, 13) |
| OneCube.OriginFaces | opengl_physics/voxels.cpp:122-157 | that grid yields six faces, all owned by cube 0, whose 24 corner indices are the quads [0,2,6,4], [0,4,5,1], [0,1,3,2], [1,3,7,5], [2,6,7,3], [4,5,7,6] of sides -x, -y, -z, +x, +y, +z (corner x + 2y + 4z) |
| OneCube.OriginCornerIndex | opengl_physics/voxels.cpp:91-119 | in that grid the corner at (x,y,z) of the unit box has index x + 2y + 4z in the corner list |
| OneCube.OriginQuad | opengl_physics/voxels.cpp:122-157 | the quad of side d of the origin cube lists the box numbers of its four corners in `FaceCorner` order |
| VoxelSpec.SelectedIs | opengl_physics/voxels.cpp:65-73 | a scan selection equals any strictly increasing sequence holding exactly the flagged positions |
| Renderer.StepsToDo | opengl_physics/voxels.cpp:503-507 | one iteration for a single step; otherwise enough two-dispatch iterations for `PHYS_STEPS_PER_FRAME / SLOWDOWN_FACTOR` dispatches |
| Renderer.PingPongChain | opengl_physics/voxels.cpp:509-512 | n iterations issue 2n dispatches, each reading the other set than it writes and the one the previous dispatch wrote; the first reads `physBuf1` and the last writes it |
| Renderer.Physics | opengl_physics/voxels.cpp:493-517 | nothing happens iff paused without a pending step; `doingStep` is cleared and `paused` kept; a step runs one pair; unpaused runs `PHYS_STEPS_PER_FRAME / SLOWDOWN_FACTOR` dispatches; every run is a ping-pong chain that reads `physBuf1` first, writes `physBuf1` last, never reads and writes the same set in one dispatch, and reads in each dispatch what the previous one wrote |
| Renderer.KeyP | opengl_physics/voxels.cpp:412-414 | a press toggles `paused`, nothing else does |
| Renderer.KeyPeriod | opengl_physics/voxels.cpp:415-420 | a press sets `paused` and `doingStep` |
| Renderer.KeyPTwice | opengl_physics/voxels.cpp:412-414 | two presses of P restore the switches |
| Renderer.SingleStep | opengl_physics/voxels.cpp:415-420 | after '.', the next frame runs exactly one pair of dispatches, and the frame after runs none |
| Renderer.FaceId | opengl_physics/voxels.cpp:632-634 | the as-written decode never reaches 0xFFFFFF (at most 16776705) |
| Renderer.Pick | opengl_physics/voxels.cpp:636-661 | the selected cube is `faceCubes[faceID]`, with depth and offset taken from the projection |
| Renderer.Clicked | opengl_physics/voxels.cpp:422-427 | a left press picks, a left release resets to the `ClickData` defaults, and anything else leaves the click state alone |
| Renderer.ClickReleased | opengl_physics/voxels.cpp:673-675 | a press followed by a release returns the click state to its defaults |
| Renderer.WhiteMissesBackground | opengl_physics/voxels.cpp:615 | the white clear colour decodes to 16776705, not the background id |
| Renderer.FaceIdCollides | opengl_physics/voxels.cpp:632-634 | distinct colours decode to the same id |
| Renderer.Encode | opengl_physics/voxels.cpp:632-634 | the base-256 colour of a face id below 2^24: the base-256 decode reads the id back, and the colour is white iff the id is the background id 0xFFFFFF |
| Renderer.FaceIdBase256 | opengl_physics/voxels.cpp:632-634 | the base-256 decode stays below 2^24 |
| Renderer.Base256RoundTrip | opengl_physics/voxels.cpp:632-636 | encoding the base-256 decode of any colour gives that colour back, and white decodes to 0xFFFFFF |
| Renderer.Base256Injective | opengl_physics/voxels.cpp:632-634 | the base-256 decode is one-to-one |
| Renderer.EncodeBase255 | opengl_physics/voxels.cpp:632-634 | the base-255 colour of a face id below 255^3 has three digits below 255, and the base-255 decode reads the id back |
| Renderer.FaceIdBase255 | opengl_physics/voxels.cpp:632-634 | the base-255 decode stays at or below 255 * (1 + 255 + 255^2) |
| Renderer.Base255RoundTrip | opengl_physics/voxels.cpp:632-634 | on colours whose digits are below 255, the base-255 decode stays below 255^3 and encoding it gives the colour back |
| Renderer.FaceIdInjectiveOnBase255 | opengl_physics/voxels.cpp:632-634 | on colours whose three digits are below 255 the as-written decode is one-to-one |
| Renderer.DecodeMismatch | opengl_physics/voxels.cpp:632-636 | the as-written decode inverts neither digit encoding: it reads base-255 face 255^2 as 0xFFFF and base-256 face 256 as 255; a base-255 decode reads white as 16646655, not 0xFFFFFF |
| Renderer.DigitsUnique | opengl_physics/voxels.cpp:632-634 | two-digit numbers in a base are equal only digit by digit |
| Renderer.PickBase256 | opengl_physics/voxels.cpp:636-638 | with the base-256 decode, white leaves the click state unchanged and every other colour selects the owner of the face it encodes |
| Renderer.VoxelRenderer.constructor | opengl_physics/voxels.cpp:268-274 | starts paused, with no pending step, default click data and no dispatches |
| Renderer.VoxelRenderer.PhysicsStep | opengl_physics/voxels.cpp:509-512 | records one dispatch and changes nothing else |
| Renderer.VoxelRenderer.DoPhysics | opengl_physics/voxels.cpp:493-517 | the switches and the dispatches issued are those `Physics` gives for the old switches |
| Renderer.VoxelRenderer.OnKeyP | opengl_physics/voxels.cpp:412-414 | the switches become `KeyP` of the old ones; nothing else changes |
| Renderer.VoxelRenderer.OnKeyPeriod | opengl_physics/voxels.cpp:415-420 | the switches become `KeyPeriod` of the old ones; nothing else changes |
| Renderer.VoxelRenderer.OnClick | opengl_physics/voxels.cpp:422-427 | the click state becomes `Clicked` of the old one |
| Renderer.VoxelRenderer.GetClickPos | opengl_physics/voxels.cpp:632-638 | the click state becomes `Pick` of the old one under the as-written decode |
| Renderer.VoxelRenderer.MouseUp | opengl_physics/voxels.cpp:673-675 | the click state is reset to cube -1, depth 1 and zero offset |

## Left out

- All OpenGL work is left out, because none of it is host logic:
  - buffer and texture creation, uploads and attribute setup;
  - shader programs;
  - the transform-feedback dispatch inside `physicsStep`;
  - `drawVoxels` and `drawVectors`;
  - `initPicking`;
  - the off-screen render and pixel read-back in `getClickPos`.
- `physicsStep` is recorded only as a `(input, output)` dispatch.
- The physics force law runs in shaders, which are not part of this model.
- `genSphere` fills the grid using floating-point `pow` and `ceil`. The grid is an arbitrary input instead.
- `getClickPos` computes the picked cube's screen depth and world offset with glm floating-point projection and `unProject`. Both values are passed in as parameters, and the picked pixel is a parameter too.
- Console output (`std::cout`) is not modelled.
- main.cpp, input.cpp/input.hpp and loaders.cpp/loaders.hpp are not part of this model (window and event plumbing, file loading, shader compilation).
- `cubesPos` holds integer coordinates where the source has float vectors. It stores only whole numbers small enough to be exact.
- `size_t` and `int` widths are unbounded here. Overflow of the grid total, the linear index or the face-id arithmetic is not modelled.
- Voxels.VoxelStorage.SetCubes: requires `vertsNeighbors`, `faceIndices` and `faceCubes` to be empty on entry. The source clears only `cubesPos` and `cubesData`, and its only caller, the constructor, starts with all five lists empty. A second call would append to the old corners and faces, and the model does not describe that.
- The source's nested loops in `setCubes` are split into helper methods, one loop level each:
  - ScanCell, LinkDown and LinkAxis;
  - ScanLattice, ScanRow, VisitCorner, RecordCorner, GatherSlots and ReadSlot;
  - AddCubeFaces and FaceCorners.

  The statements inside the loops are the source's.
- Voxels.VoxelStorage.LinkDown: the links of the cube scan are built in a local list, which is written back to `cubesData` after each cell. The source back-patches `cubesData` in place.
- Voxels.VoxelStorage.ScanLattice: the growing corner list is passed between the loop levels by value, then stored into `vertsNeighbors`.
- The `assert(indexMap >= 0)` inside the link loop is proved (AxisLinked) rather than executed.
- `faceCubes` is handed to `VoxelRenderer` as a sequence. The source reads it from the `toRender` storage.
- The picker shader is not part of this model, so the colour it writes for a face id is not known. Both readings are modelled: `Encode` (base 256) and `EncodeBase255` (base 255). `PickBase256` uses base 256 because it is the only one of the two under which the white clear colour (voxels.cpp:615) decodes to the 0xFFFFFF background test (voxels.cpp:636); a base-255 encoding, which the as-written 0xFF multiplier suggests, decodes white to 16646655.
- Renderer.VoxelRenderer.GetClickPos: requires the as-written face id to be below `faceCubes`' length. The source indexes `toRender.faceCubes` without a range check, including for the background colour, which it cannot recognise (see Findings).
- GLFW event dispatch (`addKeyListener`, `addClickListener`) is modelled by calling the listener methods directly. The key and button codes are the GLFW constants the source compares against.

## Findings

| source | as written | input that shows it | evidently intended | confidence | as-written member | corrected member |
|---|---|---|---|---|---|---|
| opengl_physics/voxels.cpp:632-636 | `faceID = r + g*0xFF + b*0xFFFF`; the background test is `faceID == 0xFFFFFF` and the clear colour is white | a click on empty background reads pixel (255,255,255). It decodes to 16776705, so the test fails and `faceCubes[16776705]` is read out of range | a base-256 decode, under which white is 0xFFFFFF and selection is skipped | high, not executed | Renderer.WhiteMissesBackground | Renderer.PickBase256 |
| opengl_physics/voxels.cpp:632-634 | the blue digit is weighted 0xFFFF, which is the square of neither base: 255^2 is 0xFE01 and 256^2 is 0x10000 | with base-255 digits, face 65025 is (0,0,1) and decodes to 65535. With base-256 digits, face 256 is (0,1,0) and decodes to 255, the id of (255,0,0) | a decode that inverts the picker shader's encoding, whichever base that uses | medium-low, not executed; the shader is not part of this model | Renderer.DecodeMismatch | Renderer.Base256RoundTrip |
