/** The row-major index of a voxel in the dense array (src/main.rs:125-128). */
module Layout {
  import opened VdbTypes
  import opened Dimensions

  lemma MulLeRight(a: int, b: int, k: int)
    requires a <= b && 0 <= k
    ensures a * k <= b * k
  {
    assert b * k - a * k == (b - a) * k;
  }

  /** `x + y*size_x + z*size_x*size_y`: x varies fastest, then y, then z. */
  function FlatIndex(d: Dims, c: Coord): (i: int)
    ensures c.x >= 0 && c.y >= 0 && c.z >= 0 ==> i >= 0
    ensures InBounds(d, c) ==> i < d.sx * d.sy * d.sz
  {
    var i := c.x + c.y * d.sx + c.z * d.sx * d.sy;
    if c.x >= 0 && c.y >= 0 && c.z >= 0 then
      MulLeRight(0, c.y, d.sx);
      MulLeRight(0, c.z * d.sx, d.sy);
      MulLeRight(0, c.z, d.sx);
      if InBounds(d, c) then
        RowMajorBound(d, c);
        i
      else i
    else i
  }

  /** `c` lies inside the dense array on every axis. */
  predicate InBounds(d: Dims, c: Coord)
  {
    0 <= c.x < d.sx && 0 <= c.y < d.sy && 0 <= c.z < d.sz
  }

  /** The bound of the row-major index of an in-bounds coordinate. */
  lemma RowMajorBound(d: Dims, c: Coord)
    requires InBounds(d, c)
    ensures c.x + c.y * d.sx + c.z * d.sx * d.sy < d.sx * d.sy * d.sz
  {
    var p := d.sx * d.sy;
    MulLeRight(c.y, d.sy - 1, d.sx);
    assert c.x + c.y * d.sx <= p - 1;
    MulLeRight(c.z, d.sz - 1, p);
    assert c.z * d.sx * d.sy == c.z * p;
    assert (d.sz - 1) * p == p * d.sz - p;
  }

  /** The inverse of `FlatIndex`: the (x, y, z) of cell `i`. */
  function Unflatten(d: Dims, i: int): (int, int, int)
    requires d.sx > 0 && d.sy > 0
  {
    (i % d.sx, (i / d.sx) % d.sy, (i / d.sx) / d.sy)
  }

  lemma DivModUnique(n: int, q: int, r: int, m: int)
    requires m > 0 && 0 <= r < m && n == q * m + r
    ensures n / m == q && n % m == r
  {
    var q', r' := n / m, n % m;
    assert n == q' * m + r';
    if q' < q {
      MulLeRight(q' + 1, q, m);
      assert false;
    } else if q < q' {
      MulLeRight(q + 1, q', m);
      assert false;
    }
  }

  /** Reading a cell's coordinates back from its index gives the voxel that was stored there. */
  lemma UnflattenFlatIndex(d: Dims, c: Coord)
    requires InBounds(d, c)
    ensures Unflatten(d, FlatIndex(d, c)) == (c.x, c.y, c.z)
  {
    var rest := c.y + c.z * d.sy;
    var i := FlatIndex(d, c);
    assert i == c.x + c.y * d.sx + c.z * d.sx * d.sy;
    assert c.z * d.sx * d.sy == (c.z * d.sy) * d.sx;
    assert rest * d.sx == c.y * d.sx + (c.z * d.sy) * d.sx;
    assert i == rest * d.sx + c.x;
    DivModUnique(FlatIndex(d, c), rest, c.x, d.sx);
    DivModUnique(rest, c.z, c.y, d.sy);
  }

  /** Distinct in-bounds coordinates occupy distinct cells. */
  lemma FlatIndexInjective(d: Dims, c1: Coord, c2: Coord)
    requires InBounds(d, c1) && InBounds(d, c2)
    requires FlatIndex(d, c1) == FlatIndex(d, c2)
    ensures c1 == c2
  {
    UnflattenFlatIndex(d, c1);
    UnflattenFlatIndex(d, c2);
  }

  /** The first corner is cell 0 and the opposite corner is the last cell. */
  lemma FlatIndexCorners(d: Dims)
    requires 0 < d.sx <= 0x8000_0000 && 0 < d.sy <= 0x8000_0000 && 0 < d.sz <= 0x8000_0000
    ensures FlatIndex(d, Coord(0, 0, 0)) == 0
    ensures FlatIndex(d, Coord(d.sx - 1, d.sy - 1, d.sz - 1)) == d.sx * d.sy * d.sz - 1
  {
  }

  /**
   * Where the source as written stores a voxel in a debug build: the index
   * is bounded only by the length of the array, through the panic of
   * `density[idx]`, and a negative coordinate, which wraps in `as usize`,
   * panics on the overflow of the index arithmetic. A release build does not
   * check that overflow and can store such a voxel in another cell; that
   * build is not modelled.
   */
  function SourceWriteIndex(d: Dims, c: Coord): (r: Option<nat>)
    ensures r.Some? ==> r.value < d.sx * d.sy * d.sz
    ensures r.Some? <==> c.x >= 0 && c.y >= 0 && c.z >= 0 && FlatIndex(d, c) < d.sx * d.sy * d.sz
    ensures r.Some? ==> r.value == FlatIndex(d, c)
    ensures InBounds(d, c) ==> r == Some(FlatIndex(d, c))
  {
    if c.x < 0 || c.y < 0 || c.z < 0 || FlatIndex(d, c) >= d.sx * d.sy * d.sz then None
    else Some(FlatIndex(d, c))
  }

  /**
   * The source lets through a voxel past the end of a row whenever a later
   * row exists: `(size_x, 0, 0)` lands in the cell of `(0, 1, 0)`.
   */
  lemma SourceWriteAliases(d: Dims)
    requires 0 < d.sx < 0x8000_0000 && 2 <= d.sy && 0 < d.sz
    ensures !InBounds(d, Coord(d.sx, 0, 0)) && InBounds(d, Coord(0, 1, 0))
    ensures SourceWriteIndex(d, Coord(d.sx, 0, 0)) == Some(FlatIndex(d, Coord(0, 1, 0)))
  {
  }

  /**
   * With metadata shape (4, 4, 4) and a voxel at (10, 0, 0), the source
   * writes cell 10, which belongs to (2, 2, 0).
   */
  lemma SourceWritesForeignCell()
    ensures !InBounds(Dims(4, 4, 4), Coord(10, 0, 0))
    ensures SourceWriteIndex(Dims(4, 4, 4), Coord(10, 0, 0)) == Some(10)
    ensures FlatIndex(Dims(4, 4, 4), Coord(2, 2, 0)) == 10
  {
  }
}
