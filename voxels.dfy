/** `VoxelStorage` (voxels.cpp): the occupancy grid and the surface extracted from it by
    `setCubes`, proved equal to the functions of `VoxelSpec`. */
module Voxels {
  import opened NDArray
  import opened VoxelSpec

  class VoxelStorage {
    /** The occupancy grid, copied in by the constructor and never changed. */
    const storage: ArrayND<bool>
    /** Grid coordinate of each cube (the source keeps them as float vectors of whole numbers). */
    var cubesPos: seq<seq<nat>>
    var cubesData: seq<CubeData>
    var vertsNeighbors: seq<VertNeighbors>
    var faceIndices: seq<nat>
    var faceCubes: seq<nat>

    /** The grid as a value. */
    function Occupancy(): Grid
      reads this, storage
    {
      Grid(storage.sizes, storage.linear)
    }

    ghost predicate GridValid()
      reads this, storage
    {
      storage.Valid() && |storage.sizes| == 3
    }

    /** Every list holds what extraction computes from the grid. */
    ghost predicate Valid()
      reads this, storage
    {
      && GridValid()
      && cubesPos == CubePositions(Occupancy())
      && cubesData == CubeLinks(Occupancy())
      && vertsNeighbors == CornerList(Occupancy())
      && faceIndices == FaceIndices(Occupancy())
      && faceCubes == FaceCubes(Occupancy())
    }

    /** `VoxelStorage(storage)`: copy the grid, then extract its surface. */
    constructor (grid: ArrayND<bool>)
      requires grid.Valid() && |grid.sizes| == 3
      ensures Valid() && fresh(storage)
      ensures storage.sizes == grid.sizes && storage.linear == grid.linear
    {
      storage := new ArrayND.Copy(grid);
      cubesPos, cubesData := [], [];
      vertsNeighbors, faceIndices, faceCubes := [], [], [];
      new;
      SetCubes();
    }

    /** `setCubes`: clear the cube lists, then list the cubes with their links, the surface
        corners, and the faces. Only the cube lists are cleared; the other three are empty
        whenever the constructor calls it. */
    method SetCubes()
      requires GridValid()
      requires vertsNeighbors == [] && faceIndices == [] && faceCubes == []
      modifies this
      ensures Valid()
    {
      cubesPos := [];
      cubesData := [];
      var indexMap := ScanCubes();
      var cornerIndexMap := FindCorners(indexMap);
      QuadsReadable(Occupancy());
      FacesRead(Occupancy(), |Cubes(Occupancy())|);
      MakeFaces(cornerIndexMap);
    }

    /** The cube scan: one cube per occupied cell in linear order, each linked to the cubes one
        step down each axis, and those linked back. Returns `indexMap`. */
    method ScanCubes() returns (indexMap: ArrayND<int>)
      requires GridValid() && cubesPos == [] && cubesData == []
      modifies this
      ensures fresh(indexMap) && indexMap.Valid() && indexMap.sizes == storage.sizes
      ensures indexMap.linear == CubeIndexMap(Occupancy())
      ensures cubesPos == CubePositions(Occupancy()) && cubesData == CubeLinks(Occupancy())
      ensures vertsNeighbors == old(vertsNeighbors) && faceIndices == old(faceIndices)
      ensures faceCubes == old(faceCubes)
    {
      ghost var g := Occupancy();
      ghost var full := CubePositions(g);
      indexMap := new ArrayND.Filled(storage.sizes, -1);
      ScanStart(g.cells, full, indexMap.linear);
      assert LinksBefore(g, cubesData, 0);
      var total := storage.Total();
      var i := 0;
      while i < total
        invariant 0 <= i <= total && total == |g.cells|
        invariant fresh(indexMap) && indexMap.Valid() && indexMap.sizes == storage.sizes
        invariant CubesScanned(g, full, indexMap.linear, i)
        invariant vertsNeighbors == old(vertsNeighbors) && faceIndices == old(faceIndices)
        invariant faceCubes == old(faceCubes)
      {
        ScanCell(g, full, indexMap, i);
        i := i + 1;
      }
      ScanEnd(g.cells, full, cubesPos, indexMap.linear);
      LinksComplete(g, cubesData);
    }

    /** The cube lists and `index` once the cells below i are scanned. */
    ghost predicate CubesScanned(g: Grid, full: seq<seq<nat>>, index: seq<int>, i: nat)
      reads this
      requires g.Valid()
    {
      && ScanBefore(g.cells, full, cubesPos, index, i)
      && |cubesData| == |cubesPos| <= |Cubes(g)|
      && LinksBefore(g, cubesData, 3 * i)
    }

    /** One pass of the cube scan, at cell i: an occupied cell appends its cube with its
        coordinate, records the cube's index in `indexMap`, and links it downwards. */
    method ScanCell(ghost g: Grid, ghost full: seq<seq<nat>>, indexMap: ArrayND<int>, i: nat)
      requires GridValid() && g == Occupancy() && full == CubePositions(g)
      requires indexMap.Valid() && indexMap.sizes == storage.sizes && i < |g.cells|
      requires CubesScanned(g, full, indexMap.linear, i)
      modifies this, indexMap
      ensures indexMap.Valid()
      ensures CubesScanned(g, full, indexMap.linear, i + 1)
      ensures vertsNeighbors == old(vertsNeighbors) && faceIndices == old(faceIndices)
      ensures faceCubes == old(faceCubes)
    {
      if storage.linear[i] {
        CubeAppended(g, full, cubesPos, cubesData, indexMap.linear, i);
        var coord := storage.Ind2Coord(i);
        var newest := |cubesData|;
        indexMap.linear := indexMap.linear[i := newest];
        var linked := LinkDown(g, indexMap, coord, i, cubesData + [NoNeighbors]);
        cubesPos, cubesData := cubesPos + [coord], linked;
      } else {
        CellSkipped(g, full, cubesPos, cubesData, indexMap.linear, i);
      }
    }

    /** The inner loop of the cube scan for the newest cube, at cell i with coordinate `coord`:
        along each axis, link it with the cube one step down, if there is one. */
    method LinkDown(ghost g: Grid, indexMap: ArrayND<int>, coord: seq<nat>, i: nat, data: seq<CubeData>)
      returns (linked: seq<CubeData>)
      requires GridValid() && g == Occupancy() && indexMap.Valid() && indexMap.sizes == storage.sizes
      requires LinkReady(g, indexMap.linear, |data|, i) && coord == IndexToCoord(g.sizes, i)
      requires LinksBefore(g, data, 3 * i)
      ensures |linked| == |data| && LinksBefore(g, linked, 3 * i + 3)
    {
      linked := data;
      var j := 0;
      while j < 3
        invariant 0 <= j <= 3 && |linked| == |data|
        invariant LinksBefore(g, linked, 3 * i + j)
      {
        linked := LinkAxis(g, indexMap, coord, i, j, linked);
        j := j + 1;
      }
    }

    /** One pass of that loop: when the cell one step down axis j is inside the grid and
        occupied, its cube (read from `indexMap`) and the newest cube become each other's
        neighbours on sides j and j + 3. */
    method LinkAxis(ghost g: Grid, indexMap: ArrayND<int>, coord: seq<nat>, i: nat, j: nat, data: seq<CubeData>)
      returns (linked: seq<CubeData>)
      requires GridValid() && g == Occupancy() && indexMap.Valid() && indexMap.sizes == storage.sizes
      requires LinkReady(g, indexMap.linear, |data|, i) && coord == IndexToCoord(g.sizes, i)
      requires j < 3 && LinksBefore(g, data, 3 * i + j)
      ensures |linked| == |data| && LinksBefore(g, linked, 3 * i + j + 1)
    {
      linked := data;
      if coord[j] > 0 {
        var neighborCoord := coord[j := coord[j] - 1];
        AxisRead(g, i, j);
        var occupied := storage.Get(neighborCoord);
        if occupied.value {
          var found := indexMap.Get(neighborCoord);
          assert found.value == IndexOf(g.cells, Linearize(g.sizes, neighborCoord));
          AxisLinked(g, data, i, j, coord, neighborCoord);
          var newest := |data| - 1;
          linked := SetNeighbor(linked, newest, j, found.value);
          linked := SetNeighbor(linked, found.value, j + 3, newest);
        } else {
          AxisEmpty(g, data, i, j, coord, neighborCoord);
        }
      } else {
        AxisEdge(g, data, i, j);
      }
    }

    /** The corner scan: every lattice point, z outermost and x innermost, whose eight
        surrounding cells are neither all cubes nor all empty is listed with its slots, and
        `cornerIndexMap` records its index. Returns `cornerIndexMap`. */
    method FindCorners(indexMap: ArrayND<int>) returns (cornerIndexMap: ArrayND<int>)
      requires GridValid() && indexMap.Valid() && indexMap.sizes == storage.sizes
      requires indexMap.linear == CubeIndexMap(Occupancy())
      requires vertsNeighbors == []
      modifies this
      ensures fresh(cornerIndexMap) && cornerIndexMap.Valid()
      ensures cornerIndexMap.sizes == CornerSizes(storage.sizes)
      ensures cornerIndexMap.linear == CornerIndexMap(Occupancy())
      ensures vertsNeighbors == CornerList(Occupancy())
      ensures cubesPos == old(cubesPos) && cubesData == old(cubesData)
      ensures faceIndices == old(faceIndices) && faceCubes == old(faceCubes)
    {
      ghost var g := Occupancy();
      var sizes := storage.sizes;
      ghost var cs := CornerSizes(sizes);
      ghost var f, full := CornerFlags(g), CornerList(g);
      cornerIndexMap := new ArrayND.Filled([sizes[0] + 1, sizes[1] + 1, sizes[2] + 1], -1);
      ScanStart(f, full, cornerIndexMap.linear);
      CornerRule(g);
      vertsNeighbors := ScanLattice(g, f, full, indexMap, cornerIndexMap, vertsNeighbors);
      ScanEnd(f, full, vertsNeighbors, cornerIndexMap.linear);
    }

    /** The loops of the corner scan over z and y, for any flags f and list `full` that follow
        the corner rule. */
    method ScanLattice(ghost g: Grid, ghost f: seq<bool>, ghost full: seq<VertNeighbors>,
                       indexMap: ArrayND<int>, cornerIndexMap: ArrayND<int>, corners: seq<VertNeighbors>)
      returns (listed: seq<VertNeighbors>)
      requires GridValid() && g == Occupancy() && CornersAt(g, f, full)
      requires indexMap.Valid() && indexMap.sizes == storage.sizes
      requires indexMap.linear == CubeIndexMap(g) && indexMap != cornerIndexMap
      requires cornerIndexMap.Valid() && cornerIndexMap.sizes == CornerSizes(g.sizes)
      requires ScanBefore(f, full, corners, cornerIndexMap.linear, 0)
      modifies cornerIndexMap
      ensures cornerIndexMap.Valid()
      ensures ScanBefore(f, full, listed, cornerIndexMap.linear, |f|)
    {
      var sizes := storage.sizes;
      ghost var cs := CornerSizes(sizes);
      listed := corners;
      var z := 0;
      while z <= sizes[2]
        invariant 0 <= z <= sizes[2] + 1
        invariant cornerIndexMap.Valid()
        invariant ScanBefore(f, full, listed, cornerIndexMap.linear, LatticeIndex(cs, 0, 0, z))
      {
        var y := 0;
        while y <= sizes[1]
          invariant 0 <= y <= sizes[1] + 1
          invariant cornerIndexMap.Valid()
          invariant ScanBefore(f, full, listed, cornerIndexMap.linear, LatticeIndex(cs, 0, y, z))
        {
          listed := ScanRow(g, f, full, indexMap, cornerIndexMap, y, z, listed);
          y := y + 1;
        }
        LatticeCarry(cs, cs[1], z);
        z := z + 1;
      }
      LatticeCarry(cs, 0, cs[2]);
    }

    /** One row of the corner scan: lattice points (0, y, z) to (sizes[0], y, z). */
    method ScanRow(ghost g: Grid, ghost f: seq<bool>, ghost full: seq<VertNeighbors>,
                   indexMap: ArrayND<int>, cornerIndexMap: ArrayND<int>, y: nat, z: nat,
                   corners: seq<VertNeighbors>)
      returns (listed: seq<VertNeighbors>)
      requires GridValid() && g == Occupancy() && CornersAt(g, f, full)
      requires indexMap.Valid() && indexMap.sizes == storage.sizes
      requires indexMap.linear == CubeIndexMap(g) && indexMap != cornerIndexMap
      requires cornerIndexMap.Valid() && cornerIndexMap.sizes == CornerSizes(g.sizes)
      requires y <= g.sizes[1] && z <= g.sizes[2]
      requires ScanBefore(f, full, corners, cornerIndexMap.linear, LatticeIndex(CornerSizes(g.sizes), 0, y, z))
      modifies cornerIndexMap
      ensures cornerIndexMap.Valid()
      ensures ScanBefore(f, full, listed, cornerIndexMap.linear, LatticeIndex(CornerSizes(g.sizes), 0, y + 1, z))
    {
      var sizes := storage.sizes;
      ghost var cs := CornerSizes(sizes);
      listed := corners;
      var x := 0;
      while x <= sizes[0]
        invariant 0 <= x <= sizes[0] + 1
        invariant cornerIndexMap.Valid()
        invariant ScanBefore(f, full, listed, cornerIndexMap.linear, LatticeIndex(cs, x, y, z))
      {
        listed := VisitCorner(g, f, full, indexMap, cornerIndexMap, x, y, z, listed);
        LatticeNext(cs, x, y, z);
        x := x + 1;
      }
      LatticeCarry(cs, y, z);
    }

    /** The body of the corner scan at lattice point (x, y, z), linear position p of the
        corner lattice: gather its slots, and list it when they are mixed. */
    method VisitCorner(ghost g: Grid, ghost f: seq<bool>, ghost full: seq<VertNeighbors>,
                       indexMap: ArrayND<int>, cornerIndexMap: ArrayND<int>,
                       x: nat, y: nat, z: nat, corners: seq<VertNeighbors>)
      returns (listed: seq<VertNeighbors>)
      requires GridValid() && g == Occupancy() && CornerAt(g, f, full, x, y, z)
      requires indexMap.Valid() && indexMap.sizes == storage.sizes
      requires indexMap.linear == CubeIndexMap(g) && indexMap != cornerIndexMap
      requires cornerIndexMap.Valid() && cornerIndexMap.sizes == CornerSizes(g.sizes)
      requires x <= g.sizes[0] && y <= g.sizes[1] && z <= g.sizes[2]
      requires ScanBefore(f, full, corners, cornerIndexMap.linear, LatticeIndex(CornerSizes(g.sizes), x, y, z))
      modifies cornerIndexMap
      ensures cornerIndexMap.Valid()
      ensures ScanBefore(f, full, listed, cornerIndexMap.linear, LatticeIndex(CornerSizes(g.sizes), x, y, z) + 1)
    {
      ghost var p := LatticeIndex(CornerSizes(g.sizes), x, y, z);
      var slots, allNeighExists, allNeighAir := GatherSlots(indexMap, x, y, z);
      LatticeLin(CornerSizes(g.sizes), x, y, z);
      listed := RecordCorner(f, full, cornerIndexMap, x, y, z, p, slots, !allNeighExists && !allNeighAir, corners);
    }

    /** The end of the corner scan's body at lattice point (x, y, z), linear position q of the
        corner lattice: when its slots are mixed, push them and record their index in
        `cornerIndexMap`. */
    static method RecordCorner(ghost f: seq<bool>, ghost full: seq<VertNeighbors>, cornerIndexMap: ArrayND<int>,
                               x: nat, y: nat, z: nat, ghost q: nat, slots: seq<int>, mixed: bool,
                               corners: seq<VertNeighbors>)
      returns (listed: seq<VertNeighbors>)
      requires cornerIndexMap.Valid() && |cornerIndexMap.sizes| == 3
      requires q < |f| && Linearize(cornerIndexMap.sizes, SubArray([x]).Then(y).indices + [z]) == q
      requires f[q] == mixed
      requires f[q] ==> Rank(f, q) < |full| && full[Rank(f, q)] == VertNeighbors(slots)
      requires ScanBefore(f, full, corners, cornerIndexMap.linear, q)
      modifies cornerIndexMap
      ensures cornerIndexMap.Valid()
      ensures ScanBefore(f, full, listed, cornerIndexMap.linear, q + 1)
    {
      listed := corners;
      if mixed {
        ScanAdd(f, full, corners, cornerIndexMap.linear, q);
        listed := corners + [VertNeighbors(slots)];
        cornerIndexMap.ChainedPut(cornerIndexMap.Select(x).Then(y), z, |listed| - 1);
      } else {
        ScanSkip(f, full, corners, cornerIndexMap.linear, q);
      }
    }

    /** The eight slots of lattice point (x, y, z): slot i reads `indexMap` at the cell
        (x - !(i & 1), y - !(i & 2), z - !(i & 4)) when that cell is inside the grid and keeps
        -1 otherwise; also whether every slot holds a cube and whether none does. */
    method GatherSlots(indexMap: ArrayND<int>, x: nat, y: nat, z: nat)
      returns (slots: seq<int>, allNeighExists: bool, allNeighAir: bool)
      requires GridValid() && indexMap.Valid() && indexMap.sizes == storage.sizes
      requires indexMap.linear == CubeIndexMap(Occupancy())
      ensures slots == CornerSlots(Occupancy(), [x, y, z])
      ensures allNeighExists <==> forall i :: 0 <= i < 8 ==> slots[i] != -1
      ensures allNeighAir <==> forall i :: 0 <= i < 8 ==> slots[i] == -1
      ensures Mixed(slots) <==> !allNeighExists && !allNeighAir
    {
      ghost var g := Occupancy();
      ghost var want := CornerSlots(g, [x, y, z]);
      var sizes := storage.sizes;
      slots := [-1, -1, -1, -1, -1, -1, -1, -1];
      allNeighExists, allNeighAir := true, true;
      var i := 0;
      while i < 8
        invariant 0 <= i <= 8 && |slots| == 8
        invariant forall m :: 0 <= m < i ==> slots[m] == want[m]
        invariant forall m :: i <= m < 8 ==> slots[m] == -1
        invariant allNeighExists <==> forall m :: 0 <= m < i ==> slots[m] != -1
        invariant allNeighAir <==> forall m :: 0 <= m < i ==> slots[m] == -1
      {
        var v := ReadSlot(indexMap, x, y, z, i);
        slots := slots[i := v];
        allNeighExists := allNeighExists && v != -1;
        allNeighAir := allNeighAir && v == -1;
        i := i + 1;
      }
      assert slots == want;
    }

    /** Slot i of lattice point (x, y, z): the `indexMap` entry of the cell
        (x - !(i & 1), y - !(i & 2), z - !(i & 4)) when that cell is inside the grid, else -1. */
    method ReadSlot(indexMap: ArrayND<int>, x: nat, y: nat, z: nat, i: nat) returns (v: int)
      requires GridValid() && indexMap.Valid() && indexMap.sizes == storage.sizes
      requires indexMap.linear == CubeIndexMap(Occupancy()) && i < 8
      ensures v == CornerSlots(Occupancy(), [x, y, z])[i]
    {
      var sizes := storage.sizes;
      var cubeX := x - (if i % 2 == 0 then 1 else 0);
      var cubeY := y - (if (i / 2) % 2 == 0 then 1 else 0);
      var cubeZ := z - (if (i / 4) % 2 == 0 then 1 else 0);
      SlotRead(Occupancy(), x, y, z, i, cubeX, cubeY, cubeZ);
      v := -1;
      if cubeX >= 0 && cubeY >= 0 && cubeZ >= 0
        && cubeX < sizes[0] && cubeY < sizes[1] && cubeZ < sizes[2]
      {
        v := indexMap.ChainedGet(indexMap.Select(cubeX).Then(cubeY), cubeZ);
      }
    }

    /** The face pass: for each cube in order and each open side, push the `cornerIndexMap`
        entries of the face's four corners and the cube's index. */
    method MakeFaces(cornerIndexMap: ArrayND<int>)
      requires SixSided(cubesData) && |cubesPos| == |cubesData| && Triples(cubesPos)
      requires cornerIndexMap.Valid() && |cornerIndexMap.sizes| == 3
      requires AllQuadsReadable(cubesData, cornerIndexMap.linear, cornerIndexMap.sizes, cubesPos)
      requires faceIndices == [] && faceCubes == []
      modifies this
      ensures cubesPos == old(cubesPos) && cubesData == old(cubesData)
      ensures vertsNeighbors == old(vertsNeighbors)
      ensures faceIndices == FacesIn(cubesData, cornerIndexMap.linear, cornerIndexMap.sizes, cubesPos, |cubesData|)
      ensures faceCubes == OwnersBefore(cubesData, |cubesData|)
    {
      var i := 0;
      while i < |cubesData|
        invariant 0 <= i <= |cubesData|
        invariant cubesPos == old(cubesPos) && cubesData == old(cubesData)
        invariant vertsNeighbors == old(vertsNeighbors)
        invariant faceIndices == FacesIn(cubesData, cornerIndexMap.linear, cornerIndexMap.sizes, cubesPos, i)
        invariant faceCubes == OwnersBefore(cubesData, i)
      {
        AddCubeFaces(cornerIndexMap, i);
        i := i + 1;
      }
    }

    /** The inner loop of the face pass for cube i: each open side j, in order, pushes its four
        corner indices onto `faceIndices` and i onto `faceCubes`. */
    method AddCubeFaces(cornerIndexMap: ArrayND<int>, i: nat)
      requires SixSided(cubesData) && i < |cubesData| && i < |cubesPos| && |cubesPos[i]| == 3
      requires cornerIndexMap.Valid() && |cornerIndexMap.sizes| == 3
      requires forall d :: 0 <= d < 6 && Open(cubesData, i, d) ==>
        QuadReadable(cornerIndexMap.linear, cornerIndexMap.sizes, cubesPos[i], d)
      modifies this
      ensures cubesPos == old(cubesPos) && cubesData == old(cubesData)
      ensures vertsNeighbors == old(vertsNeighbors)
      ensures faceIndices == old(faceIndices)
        + CubeFacesIn(cubesData, cornerIndexMap.linear, cornerIndexMap.sizes, cubesPos[i], i, 6)
      ensures faceCubes == old(faceCubes) + CubeOwners(cubesData, i, 6)
    {
      var cubePos := cubesPos[i];
      var j := 0;
      while j < 6
        invariant 0 <= j <= 6
        invariant cubesPos == old(cubesPos) && cubesData == old(cubesData)
        invariant vertsNeighbors == old(vertsNeighbors)
        invariant faceIndices == old(faceIndices)
          + CubeFacesIn(cubesData, cornerIndexMap.linear, cornerIndexMap.sizes, cubePos, i, j)
        invariant faceCubes == old(faceCubes) + CubeOwners(cubesData, i, j)
      {
        if cubesData[i].neighbors[j] == -1 {
          assert Open(cubesData, i, j);
          var quad := FaceCorners(cornerIndexMap, cubePos, j);
          faceIndices := faceIndices + quad;
          faceCubes := faceCubes + [i];
        }
        j := j + 1;
      }
    }

    /** The four corner indices of the face on side j of the cube at `cubePos`: start at the
        cube's position moved up by j / 3 along axis j % 3, then step along axis (j + 1) % 3,
        then along axis (j + 2) % 3, then back along axis (j + 1) % 3, reading
        `cornerIndexMap` at each stop. */
    static method FaceCorners(cornerIndexMap: ArrayND<int>, cubePos: seq<nat>, j: nat)
      returns (quad: seq<nat>)
      requires cornerIndexMap.Valid() && |cornerIndexMap.sizes| == 3 && |cubePos| == 3 && j < 6
      requires QuadReadable(cornerIndexMap.linear, cornerIndexMap.sizes, cubePos, j)
      ensures quad == QuadAt(cornerIndexMap.linear, cornerIndexMap.sizes, cubePos, j)
    {
      ghost var want := QuadAt(cornerIndexMap.linear, cornerIndexMap.sizes, cubePos, j);
      var cornerPos := cubePos;
      cornerPos := cornerPos[j % 3 := cornerPos[j % 3] + j / 3];
      FaceStep(cubePos, j, 0, cubePos, cornerPos);
      var c0 := cornerIndexMap.Get(cornerPos);
      assert c0.value == want[0];
      ghost var prev := cornerPos;
      cornerPos := cornerPos[(j + 1) % 3 := cornerPos[(j + 1) % 3] + 1];
      FaceStep(cubePos, j, 1, prev, cornerPos);
      var c1 := cornerIndexMap.Get(cornerPos);
      assert c1.value == want[1];
      prev := cornerPos;
      cornerPos := cornerPos[(j + 2) % 3 := cornerPos[(j + 2) % 3] + 1];
      FaceStep(cubePos, j, 2, prev, cornerPos);
      var c2 := cornerIndexMap.Get(cornerPos);
      assert c2.value == want[2];
      prev := cornerPos;
      cornerPos := cornerPos[(j + 1) % 3 := cornerPos[(j + 1) % 3] - 1];
      FaceStep(cubePos, j, 3, prev, cornerPos);
      var c3 := cornerIndexMap.Get(cornerPos);
      assert c3.value == want[3];
      quad := [c0.value, c1.value, c2.value, c3.value];
    }

    /** `getEBO`: the cubes with at least one open side, in increasing order. On a storage
        whose lists match its grid, these are the grid's exposed cubes, which are exactly the
        cubes that own a face. */
    method GetEBO() returns (ebo: seq<nat>)
      requires SixSided(cubesData)
      ensures ebo == ExposedCubes(cubesData)
      ensures forall k: nat :: k in ebo <==> k < |cubesData| && -1 in cubesData[k].neighbors
      ensures forall k1, k2 :: 0 <= k1 < k2 < |ebo| ==> ebo[k1] < ebo[k2]
      ensures Valid() ==> ebo == ExposedCubes(CubeLinks(Occupancy()))
      ensures Valid() ==> forall k: nat :: k in ebo <==> k in faceCubes
    {
      ebo := [];
      var i := 0;
      while i < |cubesData|
        invariant 0 <= i <= |cubesData|
        invariant ebo == Selected(Exposed(cubesData), i)
      {
        var j := 0;
        ghost var found := false;
        while j < 6
          invariant 0 <= j <= 6 && !found
          invariant forall d :: 0 <= d < j ==> !Open(cubesData, i, d)
        {
          if cubesData[i].neighbors[j] == -1 {
            assert Open(cubesData, i, j);
            ebo := ebo + [i];
            found := true;
            break;
          }
          j := j + 1;
        }
        assert found <==> Exposed(cubesData)[i];
        i := i + 1;
      }
      forall k: nat | k < |cubesData|
        ensures -1 in cubesData[k].neighbors <==> exists d :: 0 <= d < 6 && Open(cubesData, k, d)
      {
        OpenIffMissing(cubesData, k);
      }
      if Valid() {
        ExposedAreOwners();
      }
    }

    /** On a storage whose lists match its grid, the exposed cubes are the face owners. */
    lemma ExposedAreOwners()
      requires Valid()
      ensures SixSided(cubesData)
      ensures forall k: nat :: k in ExposedCubes(cubesData) <==> k in faceCubes
    {
      forall k: nat
        ensures SixSided(cubesData) && (k in ExposedCubes(cubesData) <==> k in faceCubes)
      {
        ExposedOwnFaces(Occupancy(), k);
      }
      LinksSixSided(Occupancy());
    }
  }
}
