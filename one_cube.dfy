/** A worked instance of the extractor: one occupied cell at the origin of an otherwise empty
    2x2x2 grid gives one unlinked cube, the eight corners of its unit box, and six faces. */
module OneCube {
  import opened NDArray
  import opened VoxelSpec

  /** The 2x2x2 grid whose only occupied cell is (0, 0, 0). */
  const Origin: Grid := Grid([2, 2, 2], [true, false, false, false, false, false, false, false])

  /** Corner flags of `Origin` by linear position in the 3x3x3 corner lattice (x fastest). */
  const OriginFlags: seq<bool> :=
    [true, true, false, true, true, false, false, false, false,
     true, true, false, true, true, false, false, false, false,
     false, false, false, false, false, false, false, false, false]

  /** `faceIndices` of `Origin`: the quads of sides -x, -y, -z, +x, +y, +z, by corner index
      x + 2y + 4z. */
  const OriginFaceIndices: seq<int> :=
    [0, 2, 6, 4, 0, 4, 5, 1, 0, 1, 3, 2, 1, 3, 7, 5, 2, 6, 7, 3, 4, 5, 7, 6]

  lemma OriginValid()
    ensures Origin.Valid() && CornerSizes(Origin.sizes) == [3, 3, 3]
  {
  }

  /** The only cube of `Origin` is the one at (0, 0, 0). */
  lemma OnlyOriginCube(c: seq<int>)
    ensures Origin.Valid()
    ensures CubeAt(Origin, c) != -1 <==> c == [0, 0, 0]
  {
    var g, o := Origin, [0, 0, 0];
    assert InGrid(g.sizes, o) && Lin(g.sizes, o) == 0;
    if CubeAt(g, c) != -1 {
      var l := Lin(g.sizes, c);
      assert l < 8 && g.cells[l];
      LinInjective(g.sizes, c, o);
    }
  }

  /** Slots that hold a cube exactly where the slot's cell is the origin are mixed iff the
      lattice point is a corner of the origin's unit box. */
  lemma UnitBoxCorner(p: seq<nat>, s: seq<int>)
    requires |p| == 3 && p[0] <= 2 && p[1] <= 2 && p[2] <= 2 && |s| == 8
    requires forall i :: 0 <= i < 8 ==> (s[i] != -1 <==> SlotCell(p, i) == [0, 0, 0])
    ensures Mixed(s) <==> p[0] <= 1 && p[1] <= 1 && p[2] <= 1
  {
    if p[0] <= 1 && p[1] <= 1 && p[2] <= 1 {
      var i0 := (1 - p[0]) + 2 * (1 - p[1]) + 4 * (1 - p[2]);
      assert i0 % 2 == 1 - p[0] && (i0 / 2) % 2 == 1 - p[1] && (i0 / 4) % 2 == 1 - p[2];
      assert SlotCell(p, i0) == [0, 0, 0];
      var i1 := p[0] + 2 * (1 - p[1]) + 4 * (1 - p[2]);
      assert i1 < 8 && i1 % 2 == p[0];
      assert SlotCell(p, i1)[0] != 0;
      assert s[i0] != -1 && s[i1] == -1;
    } else {
      var a := if p[0] == 2 then 0 else if p[1] == 2 then 1 else 2;
      forall i | 0 <= i < 8
        ensures s[i] == -1
      {
        assert SlotCell(p, i)[a] >= 1;
      }
    }
  }

  /** A lattice point of `Origin` is a surface corner iff it is a corner of the cube's unit box. */
  lemma OriginCorner(p: seq<nat>)
    requires |p| == 3 && p[0] <= 2 && p[1] <= 2 && p[2] <= 2
    ensures Origin.Valid()
    ensures Mixed(CornerSlots(Origin, p)) <==> p[0] <= 1 && p[1] <= 1 && p[2] <= 1
  {
    OriginValid();
    var s := CornerSlots(Origin, p);
    forall i | 0 <= i < 8
      ensures s[i] != -1 <==> SlotCell(p, i) == [0, 0, 0]
    {
      OnlyOriginCube(SlotCell(p, i));
    }
    UnitBoxCorner(p, s);
  }

  /** Position `q` of the 3x3x3 corner lattice has coordinates (q % 3, q / 3 % 3, q / 9). */
  lemma LatticeCoord(q: nat)
    requires q < 27
    ensures IndexToCoord([3, 3, 3], q) == [q % 3, q / 3 % 3, q / 9]
  {
    assert IndexToCoord([3], q / 3 / 3) == [q / 3 / 3 % 3] + IndexToCoord([], q / 3 / 3 / 3);
    assert IndexToCoord([3, 3], q / 3) == [q / 3 % 3] + IndexToCoord([3], q / 3 / 3);
    assert q / 3 / 3 % 3 == q / 9;
  }

  /** The corner flags of `Origin`: set exactly at the eight points of {0, 1}^3. */
  lemma OriginCornerFlags()
    ensures Origin.Valid() && CornerFlags(Origin) == OriginFlags
  {
    OriginValid();
    assert forall q :: 0 <= q < 27 ==>
      (OriginFlags[q] <==> q % 3 <= 1 && q / 3 % 3 <= 1 && q / 9 <= 1);
    forall q | 0 <= q < 27
      ensures CornerFlags(Origin)[q] == OriginFlags[q]
    {
      LatticeCoord(q);
      OriginCorner(IndexToCoord([3, 3, 3], q));
    }
  }

  /** The cube list of `Origin`: one cube, at the origin. */
  lemma OriginCubeList()
    ensures Origin.Valid()
    ensures Cubes(Origin) == [0] && CubePositions(Origin) == [[0, 0, 0]]
  {
    var g := Origin;
    OriginValid();
    assert Cubes(g) == [0];
    assert InGrid(g.sizes, [0, 0, 0]) && Lin(g.sizes, [0, 0, 0]) == 0;
    LinInjective(g.sizes, CubePos(g, 0), [0, 0, 0]);
  }

  /** ... with all six links -1. */
  lemma OriginCubes()
    ensures Origin.Valid()
    ensures Cubes(Origin) == [0] && CubePositions(Origin) == [[0, 0, 0]]
    ensures CubeLinks(Origin) == [NoNeighbors]
  {
    var g := Origin;
    OriginCubeList();
    forall d | 0 <= d < 6
      ensures Neighbor(g, 0, d) == -1
    {
      OnlyOriginCube(Across([0, 0, 0], d));
    }
    assert CubeLinks(g)[0].neighbors == NoNeighbors.neighbors;
  }

  /** The corners of `Origin`: the eight points of {0, 1}^3, in scan order. */
  lemma OriginCorners()
    ensures Origin.Valid()
    ensures Corners(Origin) == [0, 1, 3, 4, 9, 10, 12, 13]
  {
    OriginCornerFlags();
    forall x: nat
      ensures x < 27 && OriginFlags[x] <==> x in [0, 1, 3, 4, 9, 10, 12, 13]
    {
      FlagsAt(x);
    }
    SelectedIs(OriginFlags, [0, 1, 3, 4, 9, 10, 12, 13]);
  }

  /** The set flags of `OriginFlags` are at the points of {0, 1}^3. */
  lemma FlagsAt(x: nat)
    ensures x < 27 && OriginFlags[x] <==> x in [0, 1, 3, 4, 9, 10, 12, 13]
  {
    if x < 27 {
      assert OriginFlags[x] <==> x % 3 <= 1 && x / 3 % 3 <= 1 && x / 9 <= 1;
    }
  }

  /** The corner index of a surface corner is its place in the corner list. */
  lemma CornerIndexFrom(g: Grid, p: seq<int>, r: nat)
    requires g.Valid() && InGrid(CornerSizes(g.sizes), p) && Mixed(CornerSlots(g, p))
    requires r < |Corners(g)| && Corners(g)[r] == Lin(CornerSizes(g.sizes), p)
    ensures CornerIndexAt(g, p) == r
  {
    var r' := CornerIndexAt(g, p);
    var t := Corners(g);
    assert t[r'] == t[r];
  }

  /** Point (x, y, z) of {0, 1}^3 is entry x + 2y + 4z of the unit box's lattice positions. */
  lemma UnitBoxList(t: seq<nat>, x: nat, y: nat, z: nat)
    requires t == [0, 1, 3, 4, 9, 10, 12, 13] && x <= 1 && y <= 1 && z <= 1
    ensures t[x + 2 * y + 4 * z] == x + 3 * y + 9 * z
  {
  }

  /** The corner index of each point of {0, 1}^3: its place in scan order, x + 2y + 4z. */
  lemma OriginCornerIndex(q: seq<int>)
    requires |q| == 3 && 0 <= q[0] <= 1 && 0 <= q[1] <= 1 && 0 <= q[2] <= 1
    ensures Origin.Valid() && InGrid(CornerSizes(Origin.sizes), q)
    ensures CornerIndexAt(Origin, q) == q[0] + 2 * q[1] + 4 * q[2]
  {
    var x: nat, y: nat, z: nat := q[0], q[1], q[2];
    assert q == [x, y, z];
    var g, p, r := Origin, [x, y, z], x + 2 * y + 4 * z;
    OriginValid();
    LatticeLin([3, 3, 3], x, y, z);
    assert InGrid(CornerSizes(g.sizes), p) && Lin(CornerSizes(g.sizes), p) == x + 3 * y + 9 * z;
    OriginCorner(p);
    assert Mixed(CornerSlots(g, p));
    OriginCorners();
    UnitBoxList(Corners(g), x, y, z);
    assert r < |Corners(g)| && Corners(g)[r] == x + 3 * y + 9 * z;
    CornerIndexFrom(g, p, r);
  }

  /** Corner index x + 2y + 4z of a point (x, y, z) of the unit box at the origin. */
  function BoxNumber(p: seq<nat>): int
    requires |p| == 3
  {
    p[0] + 2 * p[1] + 4 * p[2]
  }

  /** Every point of {0, 1}^3 carries its corner index x + 2y + 4z. */
  lemma OriginCornerNumbers()
    ensures Origin.Valid() && CornerSizes(Origin.sizes) == [3, 3, 3]
    ensures forall p: seq<int> :: |p| == 3 && 0 <= p[0] <= 1 && 0 <= p[1] <= 1 && 0 <= p[2] <= 1 ==>
      CornerIndexAt(Origin, p) == p[0] + 2 * p[1] + 4 * p[2]
  {
    OriginValid();
    forall p: seq<int> | |p| == 3 && 0 <= p[0] <= 1 && 0 <= p[1] <= 1 && 0 <= p[2] <= 1
      ensures CornerIndexAt(Origin, p) == p[0] + 2 * p[1] + 4 * p[2]
    {
      OriginCornerIndex(p);
    }
  }

  /** The corners of the faces of the unit box at the origin lie in {0, 1}^3. */
  lemma UnitFaceCorner(d: nat, m: nat)
    requires d < 6 && m < 4
    ensures FaceCorner([0, 0, 0], d, m)[0] <= 1
    ensures FaceCorner([0, 0, 0], d, m)[1] <= 1
    ensures FaceCorner([0, 0, 0], d, m)[2] <= 1
  {
    var c, p := [0, 0, 0], FaceCorner([0, 0, 0], d, m);
    assert c[0] == 0 && c[1] == 0 && c[2] == 0;
  }

  /** Entry m of the quad of side d of a cube at the origin is the corner index map at corner
      m of that side of the unit box. */
  lemma UnitBoxQuadCorner(g: Grid, d: nat, m: nat)
    requires g.Valid() && |Cubes(g)| > 0 && CubePos(g, 0) == [0, 0, 0] && d < 6 && m < 4
    requires CornerSizes(g.sizes) == [3, 3, 3]
    ensures InGrid(CornerSizes(g.sizes), FaceCorner([0, 0, 0], d, m))
    ensures FaceQuad(g, 0, d)[m] == CornerIndexAt(g, FaceCorner([0, 0, 0], d, m))
  {
    UnitFaceCorner(d, m);
  }

  /** In a grid whose cube 0 sits at the origin and whose unit-box corners are numbered
      x + 2y + 4z, corner m of side d of cube 0 has index `BoxNumber(FaceCorner([0, 0, 0], d, m))`. */
  lemma UnitBoxQuadEntry(g: Grid, d: nat, m: nat)
    requires g.Valid() && |Cubes(g)| > 0 && CubePos(g, 0) == [0, 0, 0] && d < 6 && m < 4
    requires CornerSizes(g.sizes) == [3, 3, 3]
    requires forall p: seq<int> :: |p| == 3 && 0 <= p[0] <= 1 && 0 <= p[1] <= 1 && 0 <= p[2] <= 1 ==>
      CornerIndexAt(g, p) == p[0] + 2 * p[1] + 4 * p[2]
    ensures FaceQuad(g, 0, d)[m] == BoxNumber(FaceCorner([0, 0, 0], d, m))
  {
    UnitFaceCorner(d, m);
    UnitBoxQuadCorner(g, d, m);
  }

  /** The quad of side d of the unit box at the origin, by corner index x + 2y + 4z. */
  function UnitQuad(d: nat): (q: seq<int>)
    requires d < 6
  {
    seq(4, m requires 0 <= m < 4 => BoxNumber(FaceCorner([0, 0, 0], d, m)))
  }

  /** The quads of the first n sides of the unit box at the origin. */
  function UnitFaces(n: nat): seq<int>
    requires n <= 6
  {
    if n == 0 then [] else UnitFaces(n - 1) + UnitQuad(n - 1)
  }

  /** In a grid whose cube 0 sits at the origin and whose unit-box corners are numbered
      x + 2y + 4z, the quad of side d of cube 0 is the unit box's quad. */
  lemma UnitBoxQuad(g: Grid, d: nat)
    requires g.Valid() && |Cubes(g)| > 0 && CubePos(g, 0) == [0, 0, 0] && d < 6
    requires CornerSizes(g.sizes) == [3, 3, 3]
    requires forall p: seq<int> :: |p| == 3 && 0 <= p[0] <= 1 && 0 <= p[1] <= 1 && 0 <= p[2] <= 1 ==>
      CornerIndexAt(g, p) == p[0] + 2 * p[1] + 4 * p[2]
    ensures FaceQuad(g, 0, d) == UnitQuad(d)
  {
    var a, b := FaceQuad(g, 0, d), UnitQuad(d);
    UnitBoxQuadEntry(g, d, 0);
    UnitBoxQuadEntry(g, d, 1);
    UnitBoxQuadEntry(g, d, 2);
    UnitBoxQuadEntry(g, d, 3);
    SameFour(a, b);
  }

  /** Two sequences of length four with equal entries are equal. */
  lemma SameFour(a: seq<int>, b: seq<int>)
    requires |a| == 4 && |b| == 4
    requires a[0] == b[0] && a[1] == b[1] && a[2] == b[2] && a[3] == b[3]
    ensures a == b
  {
  }

  /** The quad of side d of the cube, as corner indices. */
  lemma OriginQuad(d: nat)
    requires d < 6
    ensures Origin.Valid() && |Cubes(Origin)| == 1
    ensures FaceQuad(Origin, 0, d) == UnitQuad(d)
  {
    OriginCubeList();
    assert CubePos(Origin, 0) == [0, 0, 0] by {
      assert CubePositions(Origin)[0] == CubePos(Origin, 0);
    }
    OriginCornerNumbers();
    UnitBoxQuad(Origin, d);
  }

  /** The quads of the cube's first n sides, all of them open. */
  lemma {:induction false} OriginCubeFaces(n: nat)
    requires n <= 6
    ensures Origin.Valid() && SixSided(CubeLinks(Origin)) && |CubeLinks(Origin)| == |Cubes(Origin)| == 1
    ensures CubeFaces(Origin, CubeLinks(Origin), 0, n) == UnitFaces(n)
  {
    OriginCubes();
    LinksSixSided(Origin);
    if n > 0 {
      OriginCubeFaces(n - 1);
      OriginQuad(n - 1);
      assert Open(CubeLinks(Origin), 0, n - 1);
    }
  }

  /** The unit box's quads: sides -x, -y, -z, +x, +y, +z. */
  lemma UnitQuads()
    ensures UnitQuad(0) == [0, 2, 6, 4] && UnitQuad(1) == [0, 4, 5, 1] && UnitQuad(2) == [0, 1, 3, 2]
    ensures UnitQuad(3) == [1, 3, 7, 5] && UnitQuad(4) == [2, 6, 7, 3] && UnitQuad(5) == [4, 5, 7, 6]
  {
  }

  /** The unit box's quads, side by side, are `OriginFaceIndices`. */
  lemma UnitFacesValue()
    ensures UnitFaces(6) == OriginFaceIndices
  {
    UnitQuads();
    assert UnitFaces(3) == [0, 2, 6, 4, 0, 4, 5, 1, 0, 1, 3, 2];
  }

  /** The faces of `Origin`: six, all owned by cube 0, with 24 face indices, each side's quad
      walking its corners c, c + e1, c + e1 + e2, c + e2. */
  lemma OriginFaces()
    ensures Origin.Valid()
    ensures FaceCubes(Origin) == [0, 0, 0, 0, 0, 0]
    ensures |FaceIndices(Origin)| == 24
    ensures FaceIndices(Origin) == OriginFaceIndices
  {
    var g := Origin;
    OriginCubes();
    LinksSixSided(g);
    var data := CubeLinks(g);
    IsolatedCube(data, 0);
    assert OwnersBefore(data, 1) == CubeOwners(data, 0, 6);
    FacesFour(g, data, 1);
    OriginCubeFaces(6);
    UnitFacesValue();
    assert FacesBefore(g, data, 1) == CubeFaces(g, data, 0, 6);
  }
}
