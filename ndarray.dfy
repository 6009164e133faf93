/** Row-major N-dimensional array over a flat backing sequence (arrayND.hpp).
    The first index varies fastest: the element at coordinate c lives at
    c[0] + s[0] * (c[1] + s[1] * (c[2] + ...)) of the backing sequence. */
module NDArray {

  /** Outcome of an access that the source guards with `std::out_of_range`. */
  datatype Result<T> = Ok(value: T) | OutOfRange

  /** Number of elements of an array with extents `sizes`. */
  function Product(sizes: seq<nat>): nat
  {
    if sizes == [] then 1 else sizes[0] * Product(sizes[1..])
  }

  predicate AllPositive(sizes: seq<nat>)
  {
    forall j :: 0 <= j < |sizes| ==> sizes[j] > 0
  }

  /** Every component of `coord` is below its extent. */
  predicate InBounds(sizes: seq<nat>, coord: seq<nat>)
    requires |coord| == |sizes|
  {
    forall j :: 0 <= j < |sizes| ==> coord[j] < sizes[j]
  }

  /** Row-major linear position of `coord`, computed without any bounds check. */
  function Linearize(sizes: seq<nat>, coord: seq<nat>): nat
    requires |coord| == |sizes|
  {
    if sizes == [] then 0 else coord[0] + sizes[0] * Linearize(sizes[1..], coord[1..])
  }

  /** The coordinate whose linear position is `i`: repeated remainder and quotient by each extent. */
  function IndexToCoord(sizes: seq<nat>, i: nat): (c: seq<nat>)
    requires AllPositive(sizes)
    ensures |c| == |sizes|
    ensures forall j :: 0 <= j < |sizes| ==> c[j] < sizes[j]
  {
    if sizes == [] then [] else [i % sizes[0]] + IndexToCoord(sizes[1..], i / sizes[0])
  }

  /** `coord2ind`: the linear position of an in-bounds coordinate, `OutOfRange` otherwise. */
  function CoordToIndex(sizes: seq<nat>, coord: seq<nat>): (r: Result<nat>)
    requires |coord| == |sizes|
    ensures r.Ok? <==> InBounds(sizes, coord)
    ensures r.Ok? ==> r.value == Linearize(sizes, coord) && r.value < Product(sizes)
  {
    if InBounds(sizes, coord) then
      LinearizeBelowProduct(sizes, coord);
      Ok(Linearize(sizes, coord))
    else
      OutOfRange
  }

  // ---------------------------------------------------------------------------
  // Arithmetic helpers

  lemma MulMonotone(a: nat, b: nat, c: nat)
    requires b <= c
    ensures a * b <= a * c
  {
  }

  lemma DivModUnique(n: nat, d: nat, q: nat, r: nat)
    requires 0 <= r < d && n == d * q + r
    ensures n / d == q && n % d == r
  {
    var q', r' := n / d, n % d;
    assert d * (q - q') == r' - r;
    if q != q' {
      MulMonotone(d, 1, if q < q' then q' - q else q - q');
    }
  }

  lemma DivModParts(i: nat, d: nat)
    requires d > 0
    ensures i % d < d && i == i % d + d * (i / d)
  {
  }

  lemma DivNat(n: nat, d: nat)
    requires d > 0
    ensures n / d >= 0 && n % d >= 0
  {
  }

  lemma DivBelow(i: nat, d: nat, p: nat)
    requires d > 0 && i < d * p
    ensures i / d < p
  {
    MulMonotone(d, p, if i / d >= p then i / d else p);
  }

  // ---------------------------------------------------------------------------
  // Properties of the conversions

  lemma {:induction false} ProductPositive(sizes: seq<nat>)
    requires AllPositive(sizes)
    ensures Product(sizes) > 0
  {
    if sizes != [] {
      ProductPositive(sizes[1..]);
    }
  }

  /** An index below the product exists only when no extent is zero. */
  lemma {:induction false} BelowProductPositive(sizes: seq<nat>, i: nat)
    requires i < Product(sizes)
    ensures AllPositive(sizes)
  {
    if sizes != [] {
      assert sizes[0] > 0 && Product(sizes[1..]) > 0;
      BelowProductPositive(sizes[1..], 0);
    }
  }

  /** For an in-range coordinate the linear position is below the element count. */
  lemma {:induction false} LinearizeBelowProduct(sizes: seq<nat>, coord: seq<nat>)
    requires |coord| == |sizes| && InBounds(sizes, coord)
    ensures Linearize(sizes, coord) < Product(sizes)
  {
    if sizes != [] {
      var rest := Linearize(sizes[1..], coord[1..]);
      LinearizeBelowProduct(sizes[1..], coord[1..]);
      MulMonotone(sizes[0], rest, Product(sizes[1..]) - 1);
      assert sizes[0] * (Product(sizes[1..]) - 1) == Product(sizes) - sizes[0];
    }
  }

  /** Round trip from an index: `ind2coord(i)` is in bounds and converts back to `i`. */
  lemma {:induction false} IndexRoundTrip(sizes: seq<nat>, i: nat)
    requires i < Product(sizes)
    ensures AllPositive(sizes)
    ensures InBounds(sizes, IndexToCoord(sizes, i))
    ensures Linearize(sizes, IndexToCoord(sizes, i)) == i
  {
    BelowProductPositive(sizes, i);
    if sizes != [] {
      var d, tail := sizes[0], sizes[1..];
      var q := i / d;
      DivBelow(i, d, Product(tail));
      DivModParts(i, d);
      IndexRoundTrip(tail, q);
      var c := IndexToCoord(sizes, i);
      assert c == [i % d] + IndexToCoord(tail, q);
      assert c[1..] == IndexToCoord(tail, q);
      assert Linearize(sizes, c) == i % d + d * Linearize(tail, IndexToCoord(tail, q));
    }
  }

  /** Round trip from a coordinate: an in-bounds coordinate survives `coord2ind` then `ind2coord`. */
  lemma {:induction false} CoordRoundTrip(sizes: seq<nat>, coord: seq<nat>)
    requires |coord| == |sizes| && InBounds(sizes, coord)
    ensures AllPositive(sizes)
    ensures IndexToCoord(sizes, Linearize(sizes, coord)) == coord
  {
    if sizes != [] {
      var rest := Linearize(sizes[1..], coord[1..]);
      DivModUnique(Linearize(sizes, coord), sizes[0], rest, coord[0]);
      CoordRoundTrip(sizes[1..], coord[1..]);
      assert coord == [coord[0]] + coord[1..];
    }
  }

  /** Linear positions of in-bounds coordinates are distinct. */
  lemma LinearizeInjective(sizes: seq<nat>, c1: seq<nat>, c2: seq<nat>)
    requires |c1| == |sizes| && |c2| == |sizes|
    requires InBounds(sizes, c1) && InBounds(sizes, c2)
    requires Linearize(sizes, c1) == Linearize(sizes, c2)
    ensures c1 == c2
  {
    CoordRoundTrip(sizes, c1);
    CoordRoundTrip(sizes, c2);
  }

  /** Stepping one unit down axis `j` moves the linear position back by the stride of that axis. */
  lemma {:induction false} StepDownStride(sizes: seq<nat>, coord: seq<nat>, j: nat)
    requires |coord| == |sizes| && j < |sizes| && coord[j] > 0
    ensures Linearize(sizes, coord[j := coord[j] - 1]) + Product(sizes[..j]) == Linearize(sizes, coord)
  {
    var down := coord[j := coord[j] - 1];
    if j == 0 {
      assert down[1..] == coord[1..];
    } else {
      assert down[0] == coord[0];
      assert down[1..] == coord[1..][j - 1 := coord[j] - 1];
      StepDownStride(sizes[1..], coord[1..], j - 1);
      assert sizes[..j] == [sizes[0]] + sizes[1..][..j - 1];
      assert Product(sizes[..j]) == sizes[0] * Product(sizes[1..][..j - 1]);
    }
  }

  /** Scan order: the cell one step down any axis has a smaller linear position. */
  lemma ScanOrder(sizes: seq<nat>, coord: seq<nat>, j: nat)
    requires |coord| == |sizes| && InBounds(sizes, coord) && j < |sizes| && coord[j] > 0
    ensures Linearize(sizes, coord[j := coord[j] - 1]) < Linearize(sizes, coord)
  {
    StepDownStride(sizes, coord, j);
    assert AllPositive(sizes[..j]);
    ProductPositive(sizes[..j]);
  }

  /** Seam between two extents in a product: splitting `sizes` at `j`. */
  lemma {:induction false} ProductFront(sizes: seq<nat>, j: nat)
    requires j < |sizes|
    ensures Product(sizes[j..]) == sizes[j] * Product(sizes[j + 1..])
  {
    assert sizes[j..][1..] == sizes[j + 1..];
  }

  lemma {:induction false} LinearizeFront(sizes: seq<nat>, coord: seq<nat>, j: nat)
    requires |coord| == |sizes| && j < |sizes|
    ensures Linearize(sizes[j..], coord[j..])
         == coord[j] + sizes[j] * Linearize(sizes[j + 1..], coord[j + 1..])
  {
    assert sizes[j..][1..] == sizes[j + 1..] && coord[j..][1..] == coord[j + 1..];
  }

  lemma {:induction false} IndexToCoordFront(sizes: seq<nat>, j: nat, rest: nat)
    requires AllPositive(sizes) && j < |sizes|
    ensures sizes[j] > 0 && AllPositive(sizes[j..]) && AllPositive(sizes[j + 1..])
    ensures IndexToCoord(sizes[j..], rest)
         == [rest % sizes[j]] + IndexToCoord(sizes[j + 1..], rest / sizes[j])
  {
    assert sizes[j..][1..] == sizes[j + 1..];
  }

  /** One step of `ind2coord`: peel off the next component. */
  lemma Ind2CoordStep(sizes: seq<nat>, i: nat, j: nat, coords: seq<nat>, rest: nat)
    requires AllPositive(sizes) && j < |sizes|
    requires coords + IndexToCoord(sizes[j..], rest) == IndexToCoord(sizes, i)
    ensures sizes[j] > 0 && AllPositive(sizes[j + 1..])
    ensures 0 <= rest % sizes[j] && 0 <= rest / sizes[j]
    ensures coords + [rest % sizes[j]] + IndexToCoord(sizes[j + 1..], rest / sizes[j]) == IndexToCoord(sizes, i)
  {
    IndexToCoordFront(sizes, j, rest);
    var d := sizes[j];
    DivNat(rest, d);
    var q: nat := rest / d;
    AppendAssoc(coords, [rest % d], IndexToCoord(sizes[j + 1..], q));
  }

  lemma AppendAssoc<T>(a: seq<T>, b: seq<T>, c: seq<T>)
    ensures a + b + c == a + (b + c)
  {
  }

  /** One step of the accumulated-stride loop keeps `idx + stride * rest` fixed. */
  lemma StrideStep(idx: nat, stride: nat, c: nat, s: nat, tail: nat)
    ensures idx + c * stride >= 0 && stride * s >= 0
    ensures idx + stride * (c + s * tail) == (idx + c * stride) + (stride * s) * tail
  {
  }

  // ---------------------------------------------------------------------------
  // Chained subscripts `a[i][j][k]`

  /** The subscripts gathered by `a[i][j]...` before the last one (`subArray::indices`). */
  datatype SubArray = SubArray(indices: seq<nat>)
  {
    /** One more subscript that is not the last (`subArray::operator[]`, newN > 1). */
    function Then(i: nat): SubArray
    {
      SubArray(indices + [i])
    }
  }

  // ---------------------------------------------------------------------------
  // The array object

  /** `arrayND<T, n>`: extents `sizes` (n of them) and the backing vector `linear`. */
  class ArrayND<T(0)> {
    const sizes: seq<nat>
    var linear: seq<T>

    ghost predicate Valid()
      reads this
    {
      |sizes| >= 2 && |linear| == Product(sizes)
    }

    /** `arrayND(sizes)`: the backing vector is resized to `total()` elements. */
    constructor (sizes: seq<nat>)
      requires |sizes| >= 2
      ensures Valid() && this.sizes == sizes
    {
      this.sizes := sizes;
      new;
      var n := Total();
      var buffer := new T[n];
      linear := buffer[..];
    }

    /** `arrayND(sizes, initValue)`: `total()` elements, every one equal to `initValue`. */
    constructor Filled(sizes: seq<nat>, initValue: T)
      requires |sizes| >= 2
      ensures Valid() && this.sizes == sizes
      ensures forall k :: 0 <= k < |linear| ==> linear[k] == initValue
    {
      this.sizes := sizes;
      new;
      var n := Total();
      linear := seq(n, _ => initValue);
    }

    /** The implicit copy constructor: same extents, same elements. */
    constructor Copy(other: ArrayND<T>)
      requires other.Valid()
      ensures Valid() && sizes == other.sizes && linear == other.linear
    {
      sizes := other.sizes;
      linear := other.linear;
    }

    /** `total()`: the product of the extents, accumulated left to right. */
    method Total() returns (total: nat)
      ensures total == Product(sizes)
    {
      total := 1;
      var i := 0;
      while i < |sizes|
        invariant 0 <= i <= |sizes|
        invariant total * Product(sizes[i..]) == Product(sizes)
      {
        ProductFront(sizes, i);
        total := total * sizes[i];
        i := i + 1;
      }
    }

    /** `ind2coord(i)`: each coordinate is the remainder by its extent, `i` then divided by it. */
    method Ind2Coord(i: nat) returns (coords: seq<nat>)
      requires AllPositive(sizes)
      ensures coords == IndexToCoord(sizes, i)
    {
      coords := [];
      var rest := i;
      var j := 0;
      assert sizes[0..] == sizes;
      while j < |sizes|
        invariant 0 <= j <= |sizes| && |coords| == j
        invariant AllPositive(sizes[j..])
        invariant coords + IndexToCoord(sizes[j..], rest) == IndexToCoord(sizes, i)
      {
        Ind2CoordStep(sizes, i, j, coords, rest);
        var digit, quotient := rest % sizes[j], rest / sizes[j];
        coords := coords + [digit];
        rest := quotient;
        j := j + 1;
      }
    }

    /** `coord2ind(coords)`: accumulated-stride position; throws `out_of_range` at the first
        component that is not below its extent. */
    method Coord2Ind(coords: seq<nat>) returns (r: Result<nat>)
      requires |coords| == |sizes|
      ensures r == CoordToIndex(sizes, coords)
    {
      var stride: nat := 1;
      var idx: nat := 0;
      var j := 0;
      while j < |sizes|
        invariant 0 <= j <= |sizes|
        invariant forall m :: 0 <= m < j ==> coords[m] < sizes[m]
        invariant idx + stride * Linearize(sizes[j..], coords[j..]) == Linearize(sizes, coords)
      {
        if coords[j] >= sizes[j] {
          return OutOfRange;
        }
        LinearizeFront(sizes, coords, j);
        var c, extent := coords[j], sizes[j];
        StrideStep(idx, stride, c, extent, Linearize(sizes[j + 1..], coords[j + 1..]));
        idx := idx + c * stride;
        stride := stride * extent;
        j := j + 1;
      }
      return Ok(idx);
    }

    /** Reading `a[coord]`: the element at `coord2ind(coord)`, or the `out_of_range` it throws. */
    method Get(coord: seq<nat>) returns (r: Result<T>)
      requires Valid() && |coord| == |sizes|
      ensures r.Ok? <==> InBounds(sizes, coord)
      ensures r.Ok? ==> r.value == linear[CoordToIndex(sizes, coord).value]
    {
      var k := Coord2Ind(coord);
      if k.OutOfRange? {
        return OutOfRange;
      }
      return Ok(linear[k.value]);
    }

    /** Writing `a[coord] = v`: only the element at `coord2ind(coord)` changes; nothing changes
        when the conversion throws. */
    method Put(coord: seq<nat>, v: T) returns (inRange: bool)
      requires Valid() && |coord| == |sizes|
      modifies this
      ensures Valid()
      ensures inRange == InBounds(sizes, coord)
      ensures inRange ==> linear == old(linear)[CoordToIndex(sizes, coord).value := v]
      ensures !inRange ==> linear == old(linear)
    {
      var k := Coord2Ind(coord);
      if k.OutOfRange? {
        return false;
      }
      linear := linear[k.value := v];
      return true;
    }

    /** `a[i]`: the first subscript of a chained access. */
    function Select(i: nat): SubArray
    {
      SubArray([i])
    }

    /** The last subscript of a chained access (`subArray<..., 1>::operator[]`): the
        accumulated-stride position of `sub.indices + [i]`, computed with no bounds check. */
    method ChainedIndex(sub: SubArray, i: nat) returns (idx: nat)
      requires |sub.indices| + 1 == |sizes|
      ensures idx == Linearize(sizes, sub.indices + [i])
    {
      ghost var all := sub.indices + [i];
      var stride: nat := 1;
      idx := 0;
      var j := 0;
      while j < |sizes| - 1
        invariant 0 <= j <= |sizes| - 1
        invariant idx + stride * Linearize(sizes[j..], all[j..]) == Linearize(sizes, all)
      {
        LinearizeFront(sizes, all, j);
        var c, extent := sub.indices[j], sizes[j];
        StrideStep(idx, stride, c, extent, Linearize(sizes[j + 1..], all[j + 1..]));
        idx := idx + c * stride;
        stride := stride * extent;
        j := j + 1;
      }
      assert sizes[j..][1..] == [] && all[j..] == [i];
      idx := idx + i * stride;
    }

    /** Reading `a[i][j]...[k]`: the element at the unchecked position; the vector access is
        itself unchecked, so the position must lie inside the backing vector. */
    method ChainedGet(sub: SubArray, i: nat) returns (v: T)
      requires Valid() && |sub.indices| + 1 == |sizes|
      requires Linearize(sizes, sub.indices + [i]) < |linear|
      ensures v == linear[Linearize(sizes, sub.indices + [i])]
    {
      var idx := ChainedIndex(sub, i);
      v := linear[idx];
    }

    /** Writing `a[i][j]...[k] = v` at the unchecked position. */
    method ChainedPut(sub: SubArray, i: nat, v: T)
      requires Valid() && |sub.indices| + 1 == |sizes|
      requires Linearize(sizes, sub.indices + [i]) < |linear|
      modifies this
      ensures Valid()
      ensures linear == old(linear)[Linearize(sizes, sub.indices + [i]) := v]
    {
      var idx := ChainedIndex(sub, i);
      linear := linear[idx := v];
    }

    /** `inBounds(coord)`: every component below its extent. */
    method InBoundsCoord(coord: seq<nat>) returns (b: bool)
      requires |coord| == |sizes|
      ensures b <==> InBounds(sizes, coord)
    {
      var i := 0;
      while i < |sizes|
        invariant 0 <= i <= |sizes|
        invariant forall m :: 0 <= m < i ==> coord[m] < sizes[m]
      {
        if coord[i] >= sizes[i] {
          return false;
        }
        i := i + 1;
      }
      return true;
    }

    /** `inBounds(i)` for a signed linear index. */
    method InBoundsIndex(i: int) returns (b: bool)
      ensures b <==> 0 <= i < Product(sizes)
    {
      var total := Total();
      b := i >= 0 && i < total;
    }
  }

  /** A chained access addresses the same element as the coordinate access whenever the
      coordinate is in bounds. */
  lemma ChainedMatchesCoord(sizes: seq<nat>, sub: SubArray, i: nat)
    requires |sub.indices| + 1 == |sizes| && InBounds(sizes, sub.indices + [i])
    ensures CoordToIndex(sizes, sub.indices + [i]) == Ok(Linearize(sizes, sub.indices + [i]))
  {
  }

  /** The chained access performs no bounds check: in a 2x2x2 array `a[2][0][0]`, which
      `coord2ind` rejects, lands on the element of `a[{0,1,0}]`. */
  lemma ChainedAliases()
    ensures CoordToIndex([2, 2, 2], [2, 0, 0]) == OutOfRange
    ensures Linearize([2, 2, 2], SubArray([2]).Then(0).indices + [0]) == Linearize([2, 2, 2], [0, 1, 0])
  {
  }
}
