/** The conversion as `main` runs it, from the loaded grid to the bytes of the `.density` file. */
module Pipeline {
  import opened VdbTypes
  import opened Aabb
  import opened Scan
  import opened Dimensions
  import opened Layout
  import opened Raster
  import opened Encoding

  /**
   * What a successful run produces: the shape, the two figures it logs
   * (voxel count and maximum density) and the content of the file.
   */
  datatype Conversion = Conversion(dims: Dims, nbVoxels: nat, maxDensity: real, file: seq<Record>)

  /**
   * The whole conversion of grid `gridName`, whose iteration yields
   * `samples` and whose metadata is `meta`, among the grids `gridNames`
   * of the input file.
   */
  function Convert(gridNames: set<string>, gridName: string, samples: seq<Sample>,
                   meta: map<string, MetadataValue>, useMetadata: Option<string>): (r: Result<Conversion>)
    ensures gridName !in gridNames ==> r == Err(GridNotFound(gridName))
    ensures gridName in gridNames && useMetadata.Some? && useMetadata.value !in meta ==>
      r == Err(MetadataKeyNotFound(useMetadata.value))
    ensures (gridName in gridNames && useMetadata.Some? && useMetadata.value in meta
             && !meta[useMetadata.value].Vec3i?) ==> r == Err(MetadataWrongType(useMetadata.value))
    ensures r.Ok? ==> r.value.nbVoxels == |VoxelCoords(samples)| && AllVoxelsInBounds(r.value.dims, samples)
  {
    if gridName !in gridNames then Err(GridNotFound(gridName))
    else
      var box := ExtendAll(EmptyBox, VoxelCoords(samples));
      match ResolveDims(useMetadata, meta, box)
      case Err(e) => Err(e)
      case Ok(d) =>
        match CellCount(d)
        case Err(e) => Err(e)
        case Ok(n) =>
          match Scatter(Zeros(n), d, samples)
          case Err(e) => Err(e)
          case Ok(cells) =>
            Ok(Conversion(d, |VoxelCoords(samples)|, MaxDensity(samples), EncodeDensityFile(d, cells)))
  }

  /**
   * The body of `main` after the grid is loaded: check the grid name, scan,
   * choose the shape, allocate, scatter, and emit the file.
   */
  method Run(gridNames: set<string>, gridName: string, samples: seq<Sample>,
             meta: map<string, MetadataValue>, useMetadata: Option<string>) returns (r: Result<Conversion>)
    ensures r == Convert(gridNames, gridName, samples, meta, useMetadata)
  {
    if gridName !in gridNames {
      return Err(GridNotFound(gridName));
    }
    var nbVoxels, aabb := ScanVoxels(samples);
    var dims := ResolveDims(useMetadata, meta, aabb.Value());
    if dims.Err? {
      return Err(dims.error);
    }
    var count := CellCount(dims.value);
    if count.Err? {
      return Err(count.error);
    }
    var density, outcome := Rasterize(dims.value, count.value, samples);
    if outcome.Err? {
      return Err(outcome.error);
    }
    var file := WriteDensityFile(dims.value, density);
    r := Ok(Conversion(dims.value, nbVoxels, outcome.value, file));
  }

  /** How a successful run's result is made of the stages. */
  lemma ConvertOkParts(gridNames: set<string>, gridName: string, samples: seq<Sample>,
                       meta: map<string, MetadataValue>, useMetadata: Option<string>)
    requires Convert(gridNames, gridName, samples, meta, useMetadata).Ok?
    ensures var c := Convert(gridNames, gridName, samples, meta, useMetadata).value;
      var n := c.dims.sx * c.dims.sy * c.dims.sz;
      && CellCount(c.dims) == Ok(n)
      && Scatter(Zeros(n), c.dims, samples).Ok?
      && c.file == EncodeDensityFile(c.dims, Scatter(Zeros(n), c.dims, samples).value)
      && c.maxDensity == MaxDensity(samples)
  {
  }

  /**
   * The file of a successful run: 12 + 8 * size_x * size_y * size_z bytes;
   * after the header, each cell holds the last voxel written to it or 0.0;
   * the logged maximum bounds every voxel value.
   */
  lemma ConvertedFile(gridNames: set<string>, gridName: string, samples: seq<Sample>,
                      meta: map<string, MetadataValue>, useMetadata: Option<string>)
    requires Convert(gridNames, gridName, samples, meta, useMetadata).Ok?
    ensures var c := Convert(gridNames, gridName, samples, meta, useMetadata).value;
      var n := c.dims.sx * c.dims.sy * c.dims.sz;
      var body := c.file[3..];
      && |c.file| == 3 + n
      && ByteLength(c.file) == 12 + 8 * n
      && c.file[..3] == Header(c.dims)
      && (forall k :: 0 <= k < n && (forall i :: 0 <= i < |samples| ==> !WritesTo(c.dims, samples[i], k))
            ==> body[k] == Float64Le(0.0))
      && (forall i, k :: 0 <= i < |samples| && 0 <= k < n && IsLastWriter(c.dims, samples, i, k)
            ==> body[k] == Float64Le(samples[i].value))
      && (forall i :: 0 <= i < |samples| && samples[i].level == Voxel ==> samples[i].value <= c.maxDensity)
  {
    ConvertOkParts(gridNames, gridName, samples, meta, useMetadata);
    var c := Convert(gridNames, gridName, samples, meta, useMetadata).value;
    var d := c.dims;
    var n := d.sx * d.sy * d.sz;
    var cells := Scatter(Zeros(n), d, samples).value;
    EncodedLength(d, cells);
    var body := c.file[3..];
    forall k | 0 <= k < n
      ensures (forall i :: 0 <= i < |samples| ==> !WritesTo(d, samples[i], k)) ==> body[k] == Float64Le(0.0)
      ensures forall i :: 0 <= i < |samples| && IsLastWriter(d, samples, i, k) ==>
        body[k] == Float64Le(samples[i].value)
    {
      assert body[k] == Float64Le(cells[k]);
      ScatterLastWriteWins(Zeros(n), d, samples, k);
    }
  }

  /**
   * In bounding-box mode the shape always resolves, and every voxel of
   * non-negative coordinates lies inside it: the shape is derived from
   * those very voxels.
   */
  lemma {:induction false} BoxModeVoxelsInBounds(samples: seq<Sample>, meta: map<string, MetadataValue>)
    requires forall i :: 0 <= i < |samples| && samples[i].level == Voxel ==>
      samples[i].coord.x >= 0 && samples[i].coord.y >= 0 && samples[i].coord.z >= 0
    ensures ResolveDims(None, meta, ExtendAll(EmptyBox, VoxelCoords(samples))).Ok?
    ensures AllVoxelsInBounds(ResolveDims(None, meta, ExtendAll(EmptyBox, VoxelCoords(samples))).value, samples)
  {
    var pts := VoxelCoords(samples);
    var box := ExtendAll(EmptyBox, pts);
    BoxModeDims(meta, pts, X);
    BoxModeDims(meta, pts, Y);
    BoxModeDims(meta, pts, Z);
    var d := ResolveDims(None, meta, box).value;
    VoxelCoordsMembers(samples);
    forall i | 0 <= i < |samples| && samples[i].level == Voxel
      ensures InBounds(d, samples[i].coord)
    {
      assert samples[i].coord in pts;
      var j :| 0 <= j < |pts| && pts[j] == samples[i].coord;
      assert Comp(pts[j], X) < DimOn(d, X);
      assert Comp(pts[j], Y) < DimOn(d, Y);
      assert Comp(pts[j], Z) < DimOn(d, Z);
    }
  }

  /** Hence a bounding-box-mode run never ends with `IndexOutOfRange`. */
  lemma BoxModeNeverOutOfRange(gridNames: set<string>, gridName: string, samples: seq<Sample>,
                               meta: map<string, MetadataValue>)
    requires forall i :: 0 <= i < |samples| && samples[i].level == Voxel ==>
      samples[i].coord.x >= 0 && samples[i].coord.y >= 0 && samples[i].coord.z >= 0
    ensures var r := Convert(gridNames, gridName, samples, meta, None);
      !(r.Err? && r.error.IndexOutOfRange?)
  {
    BoxModeVoxelsInBounds(samples, meta);
  }

  /**
   * A bounding-box-mode run over voxels of non-negative coordinates: the
   * shape is `max as usize + 1` of the scanned box on each axis, and the
   * run succeeds exactly when the allocator accepts that shape, failing
   * otherwise with the allocation's error.
   */
  lemma BoxModeRun(gridNames: set<string>, gridName: string, samples: seq<Sample>,
                   meta: map<string, MetadataValue>)
    requires gridName in gridNames
    requires forall i :: 0 <= i < |samples| && samples[i].level == Voxel ==>
      samples[i].coord.x >= 0 && samples[i].coord.y >= 0 && samples[i].coord.z >= 0
    ensures BoxDims(ExtendAll(EmptyBox, VoxelCoords(samples))).Ok?
    ensures var d := BoxDims(ExtendAll(EmptyBox, VoxelCoords(samples))).value;
      var r := Convert(gridNames, gridName, samples, meta, None);
      && (r.Ok? <==> CellCount(d).Ok?)
      && (r.Ok? ==> r.value.dims == d)
      && (r.Err? ==> r.error == CellCount(d).error)
  {
    BoxModeVoxelsInBounds(samples, meta);
    var box := ExtendAll(EmptyBox, VoxelCoords(samples));
    assert ResolveDims(None, meta, box) == BoxDims(box);
  }

  /** A sample of another level, wherever it stands in the stream, changes nothing in the result. */
  lemma ConvertIgnoresNonVoxel(gridNames: set<string>, gridName: string, s: seq<Sample>, u: Sample,
                               t: seq<Sample>, meta: map<string, MetadataValue>, useMetadata: Option<string>)
    requires u.level != Voxel
    ensures Convert(gridNames, gridName, s + [u] + t, meta, useMetadata)
         == Convert(gridNames, gridName, s + t, meta, useMetadata)
  {
    NonVoxelIgnored(s, u, t);
    MaxDensityAppend(s + [u], t);
    MaxDensityAppend(s, [u]);
    MaxDensityAppend(s, t);
    assert [u][..0] == [];
    var box := ExtendAll(EmptyBox, VoxelCoords(s + t));
    var rd := ResolveDims(useMetadata, meta, box);
    if rd.Ok? && CellCount(rd.value).Ok? {
      var d := rd.value;
      var z := Zeros(CellCount(d).value);
      ScatterAppend(z, d, s + [u], t);
      ScatterAppend(z, d, s, [u]);
      ScatterAppend(z, d, s, t);
      if Scatter(z, d, s).Ok? {
        var mid := Scatter(z, d, s).value;
        assert [u][..0] == [];
        assert Scatter(mid, d, [u]) == Ok(mid);
      }
    }
  }

  /**
   * In metadata mode with a `Vec3i` of non-negative sizes whose cell count
   * the allocator accepts, the run succeeds exactly when every voxel fits
   * that shape, and then the file has that shape; otherwise it ends with
   * `IndexOutOfRange` naming the first voxel outside it.
   */
  lemma MetadataModeRun(gridNames: set<string>, gridName: string, samples: seq<Sample>,
                        meta: map<string, MetadataValue>, key: string)
    requires gridName in gridNames && key in meta && meta[key].Vec3i?
    requires meta[key].v0 >= 0 && meta[key].v1 >= 0 && meta[key].v2 >= 0
    requires meta[key].v0 * meta[key].v1 * meta[key].v2 <= MAX_CELLS
    ensures var d := Dims(meta[key].v0, meta[key].v1, meta[key].v2);
      var r := Convert(gridNames, gridName, samples, meta, Some(key));
      && (r.Ok? <==> AllVoxelsInBounds(d, samples))
      && (r.Ok? ==> r.value.dims == d)
      && (r.Err? ==> exists i ::
            && 0 <= i < |samples| && samples[i].level == Voxel && !InBounds(d, samples[i].coord)
            && r.error == IndexOutOfRange(samples[i].coord)
            && AllVoxelsInBounds(d, samples[..i]))
  {
    var d := Dims(meta[key].v0, meta[key].v1, meta[key].v2);
    var box := ExtendAll(EmptyBox, VoxelCoords(samples));
    MetadataModeDims(key, meta, box);
    MulLeRight(d.sx, 0x8000_0000, d.sy);
    MulLeRight(d.sy, 0x8000_0000, 0x8000_0000);
    assert d.sx * d.sy < USIZE_MODULUS;
    assert CellCount(d) == Ok(d.sx * d.sy * d.sz);
    var z := Zeros(d.sx * d.sy * d.sz);
    if Scatter(z, d, samples).Err? {
      ScatterReportsFirstOffender(z, d, samples);
    }
  }

  /** With no `Voxel`-level sample, bounding-box mode writes a 1x1x1 grid holding a single 0.0. */
  lemma EmptyGridBoxMode(gridNames: set<string>, gridName: string, samples: seq<Sample>,
                         meta: map<string, MetadataValue>)
    requires gridName in gridNames
    requires forall i :: 0 <= i < |samples| ==> samples[i].level != Voxel
    ensures Convert(gridNames, gridName, samples, meta, None)
         == Ok(Conversion(Dims(1, 1, 1), 0, 0.0, Header(Dims(1, 1, 1)) + [Float64Le(0.0)]))
  {
    NoVoxelNoCoords(samples);
    var pts := VoxelCoords(samples);
    assert ExtendAll(EmptyBox, pts) == EmptyBox;
    var d := Dims(1, 1, 1);
    assert ResolveDims(None, meta, EmptyBox) == Ok(d);
    assert CellCount(d) == Ok(1);
    var z := Zeros(1);
    ScatterLastWriteWins(z, d, samples, 0);
    var cells := Scatter(z, d, samples).value;
    assert cells == [0.0];
    assert CellRecords(cells) == [Float64Le(0.0)];
  }

  lemma SingleVoxelShape(meta: map<string, MetadataValue>)
    ensures ResolveDims(None, meta, ExtendAll(EmptyBox, VoxelCoords([Sample(Coord(1, 2, 3), 5.0, Voxel)])))
         == Ok(Dims(2, 3, 4))
  {
    var s := [Sample(Coord(1, 2, 3), 5.0, Voxel)];
    assert s[..0] == [];
    assert VoxelCoords(s) == [Coord(1, 2, 3)];
    var box := ExtendAll(EmptyBox, [Coord(1, 2, 3)]);
    ExtendAllSnoc(EmptyBox, [], Coord(1, 2, 3));
    assert box.max == Point3(Fin(1), Fin(2), Fin(3));
    assert BoxDims(box) == Ok(Dims(2, 3, 4));
  }

  lemma SingleVoxelScatter()
    ensures Scatter(Zeros(24), Dims(2, 3, 4), [Sample(Coord(1, 2, 3), 5.0, Voxel)])
         == Ok(Zeros(24)[23 := 5.0])
  {
    var s := [Sample(Coord(1, 2, 3), 5.0, Voxel)];
    var d := Dims(2, 3, 4);
    assert FlatIndex(d, Coord(1, 2, 3)) == 23;
    assert Scatter(Zeros(24), d, s) == Step(Zeros(24), d, s[0]) by {
      assert s[..0] == [];
    }
  }

  /**
   * A single voxel at (1, 2, 3) of value 5.0 in bounding-box mode: shape
   * (2, 3, 4), one voxel counted, maximum 5.0, and 24 cells of which
   * cell 1 + 2*2 + 3*2*3 = 23 holds 5.0 and every other holds 0.0.
   */
  lemma SingleVoxelScenario(gridNames: set<string>, gridName: string, meta: map<string, MetadataValue>)
    requires gridName in gridNames
    ensures Convert(gridNames, gridName, [Sample(Coord(1, 2, 3), 5.0, Voxel)], meta, None)
         == Ok(Conversion(Dims(2, 3, 4), 1, 5.0, EncodeDensityFile(Dims(2, 3, 4), Zeros(24)[23 := 5.0])))
  {
    var s := [Sample(Coord(1, 2, 3), 5.0, Voxel)];
    SingleVoxelShape(meta);
    SingleVoxelScatter();
    assert s[..0] == [];
    assert VoxelCoords(s) == [Coord(1, 2, 3)];
    assert MaxDensity(s) == 5.0;
    assert CellCount(Dims(2, 3, 4)) == Ok(24);
  }

  /**
   * Metadata shape (4, 4, 4) with a voxel at (10, 0, 0): the run reports
   * the voxel as out of range instead of storing it in another cell.
   */
  lemma MetadataOutOfRangeScenario(gridNames: set<string>, gridName: string, key: string)
    requires gridName in gridNames
    ensures Convert(gridNames, gridName, [Sample(Coord(10, 0, 0), 1.0, Voxel)],
                    map[key := Vec3i(4, 4, 4)], Some(key))
         == Err(IndexOutOfRange(Coord(10, 0, 0)))
  {
    var s := [Sample(Coord(10, 0, 0), 1.0, Voxel)];
    var z := Zeros(64);
    assert s[..0] == [];
    assert Scatter(z, Dims(4, 4, 4), s) == Step(z, Dims(4, 4, 4), s[0]);
  }
}
