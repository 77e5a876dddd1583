/** Choosing the dense array's shape (src/main.rs:98-121). */
module Dimensions {
  import opened VdbTypes
  import opened Aabb

  /** `usize` is 64 bits wide. */
  const USIZE_MODULUS: nat := 0x1_0000_0000_0000_0000
  const USIZE_MAX: nat := USIZE_MODULUS - 1

  /**
   * `isize::MAX / 8`: the most `f64` cells a `Vec` can be asked for before
   * Rust reports a capacity overflow.
   */
  const MAX_CELLS: nat := 0x0FFF_FFFF_FFFF_FFFF

  /** The shape (size_x, size_y, size_z) of the dense array, as `usize` values. */
  datatype Dims = Dims(sx: nat, sy: nat, sz: nat)

  function DimOn(d: Dims, a: Axis): nat
  {
    match a
    case X => d.sx
    case Y => d.sy
    case Z => d.sz
  }

  /** Rust's `v as usize` for an `i32`: the 64-bit two's complement reinterpretation. */
  function UsizeOfI32(v: I32): (r: nat)
    ensures r < USIZE_MODULUS
    ensures (r - v) % USIZE_MODULUS == 0
  {
    if v < 0 then v + USIZE_MODULUS else v
  }

  /** Rust's saturating `e as usize` for an `f64` holding an integer or an infinity. */
  function UsizeOfF64(e: Ext): (r: nat)
    ensures r <= USIZE_MAX
    ensures e.NegInf? || (e.Fin? && e.n <= 0) ==> r == 0
    ensures e.PosInf? || (e.Fin? && e.n >= USIZE_MAX) ==> r == USIZE_MAX
    ensures e.Fin? && 0 <= e.n <= USIZE_MAX ==> r == e.n
  {
    match e
    case NegInf => 0
    case PosInf => USIZE_MAX
    case Fin(n) => if n < 0 then 0 else if n > USIZE_MAX then USIZE_MAX else n
  }

  /** The saturating cast keeps the order of its inputs. */
  lemma UsizeOfF64Monotone(e1: Ext, e2: Ext)
    requires Le(e1, e2)
    ensures UsizeOfF64(e1) <= UsizeOfF64(e2)
  {
  }

  /** Bounding-box mode: `max as usize + 1` on each axis; the `+ 1` panics at `usize::MAX`. */
  function BoxDims(b: Box): (r: Result<Dims>)
    ensures r.Err? <==> exists a: Axis :: UsizeOfF64(At(b.max, a)) == USIZE_MAX
    ensures r.Err? ==> r.error == ArithmeticOverflow
    ensures r.Ok? ==> forall a: Axis :: DimOn(r.value, a) == UsizeOfF64(At(b.max, a)) + 1
  {
    var ux, uy, uz := UsizeOfF64(b.max.x), UsizeOfF64(b.max.y), UsizeOfF64(b.max.z);
    assert ux == UsizeOfF64(At(b.max, X)) && uy == UsizeOfF64(At(b.max, Y)) && uz == UsizeOfF64(At(b.max, Z));
    if ux == USIZE_MAX || uy == USIZE_MAX || uz == USIZE_MAX then Err(ArithmeticOverflow)
    else Ok(Dims(ux + 1, uy + 1, uz + 1))
  }

  /**
   * The shape of the dense array: from the metadata entry named by
   * `useMetadata` when one is given, from the bounding box otherwise.
   */
  function ResolveDims(useMetadata: Option<string>, meta: map<string, MetadataValue>, b: Box)
    : (r: Result<Dims>)
    ensures useMetadata.Some? && useMetadata.value !in meta ==>
      r == Err(MetadataKeyNotFound(useMetadata.value))
    ensures useMetadata.Some? && useMetadata.value in meta && !meta[useMetadata.value].Vec3i? ==>
      r == Err(MetadataWrongType(useMetadata.value))
    ensures r.Err? && useMetadata.Some? ==> r.error.MetadataKeyNotFound? || r.error.MetadataWrongType?
    ensures useMetadata.Some? && useMetadata.value in meta && meta[useMetadata.value].Vec3i? ==>
      var v := meta[useMetadata.value];
      r == Ok(Dims(UsizeOfI32(v.v0), UsizeOfI32(v.v1), UsizeOfI32(v.v2)))
    ensures useMetadata.None? ==> r == BoxDims(b)
    ensures r.Err? && useMetadata.None? ==> r.error == ArithmeticOverflow
  {
    match useMetadata
    case Some(key) =>
      if key !in meta then Err(MetadataKeyNotFound(key))
      else (
        match meta[key]
        case Vec3i(v0, v1, v2) => Ok(Dims(UsizeOfI32(v0), UsizeOfI32(v1), UsizeOfI32(v2)))
        case _ => Err(MetadataWrongType(key))
      )
    case None => BoxDims(b)
  }

  /** In metadata mode a `Vec3i` of non-negative components is taken as the shape unchanged. */
  lemma MetadataModeDims(key: string, meta: map<string, MetadataValue>, b: Box)
    requires key in meta && meta[key].Vec3i?
    requires meta[key].v0 >= 0 && meta[key].v1 >= 0 && meta[key].v2 >= 0
    ensures ResolveDims(Some(key), meta, b) == Ok(Dims(meta[key].v0, meta[key].v1, meta[key].v2))
  {
  }

  /**
   * In bounding-box mode over the scanned coordinates, each size is one more
   * than the greatest coordinate on its axis (or 1 when there is no point,
   * or when every coordinate on that axis is negative): every non-negative
   * coordinate fits, and the last row of each axis is occupied.
   */
  lemma BoxModeDims(meta: map<string, MetadataValue>, pts: seq<Coord>, a: Axis)
    ensures ResolveDims(None, meta, ExtendAll(EmptyBox, pts)).Ok?
    ensures pts == [] ==> ResolveDims(None, meta, ExtendAll(EmptyBox, pts)) == Ok(Dims(1, 1, 1))
    ensures forall i :: 0 <= i < |pts| ==>
      Comp(pts[i], a) < DimOn(ResolveDims(None, meta, ExtendAll(EmptyBox, pts)).value, a)
    ensures DimOn(ResolveDims(None, meta, ExtendAll(EmptyBox, pts)).value, a) == 1
         || exists i :: 0 <= i < |pts|
              && Comp(pts[i], a) == DimOn(ResolveDims(None, meta, ExtendAll(EmptyBox, pts)).value, a) - 1
  {
    var b := ExtendAll(EmptyBox, pts);
    forall ax: Axis ensures UsizeOfF64(At(b.max, ax)) < USIZE_MAX {
      ExtendAllFromEmpty(pts, ax);
      if pts != [] {
        var i :| 0 <= i < |pts| && At(b.max, ax) == Fin(Comp(pts[i], ax));
      }
    }
    assert UsizeOfF64(At(b.max, X)) < USIZE_MAX;
    assert UsizeOfF64(At(b.max, Y)) < USIZE_MAX;
    assert UsizeOfF64(At(b.max, Z)) < USIZE_MAX;
    var d := ResolveDims(None, meta, b).value;
    assert DimOn(d, a) == UsizeOfF64(At(b.max, a)) + 1;
    ExtendAllFromEmpty(pts, a);
    if pts != [] {
      var i :| 0 <= i < |pts| && At(b.max, a) == Fin(Comp(pts[i], a));
      if Comp(pts[i], a) >= 0 {
        assert Comp(pts[i], a) == DimOn(d, a) - 1;
      }
    }
  }

  /**
   * `size_x * size_y * size_z` and `vec![0.0; n]`: the cell count, or the
   * panic of an overflowing `usize` product or of an oversized vector.
   */
  function CellCount(d: Dims): (r: Result<nat>)
    ensures r.Ok? <==> d.sx * d.sy < USIZE_MODULUS && d.sx * d.sy * d.sz <= MAX_CELLS
    ensures r.Ok? ==> r.value == d.sx * d.sy * d.sz
  {
    if d.sx * d.sy >= USIZE_MODULUS || d.sx * d.sy * d.sz >= USIZE_MODULUS then Err(ArithmeticOverflow)
    else if d.sx * d.sy * d.sz > MAX_CELLS then Err(CapacityOverflow)
    else Ok(d.sx * d.sy * d.sz)
  }
}
