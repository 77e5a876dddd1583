# Sparse VDB grid to dense `.density` file

This project models the conversion at the heart of `src/main.rs`. The tool
loads one named grid from a VDB file, walks its sparse tree twice and writes a
flat binary `.density` file. The walks are:

1. The scan. Every `Voxel`-level sample is counted and widens an axis-aligned
   bounding box, the `AABB` object. Samples of other levels are skipped with a
   warning.
2. The shape of the dense array is chosen. It comes either from a `Vec3i`
   metadata entry named on the command line, or from the box as
   `max as usize + 1` on each axis.
3. The scatter. A zero-filled array of `size_x * size_y * size_z` cells is
   allocated. Every voxel value is stored at the row-major index
   `x + y*size_x + z*size_x*size_y`, and the maximum density is tracked.
4. The encoding: three little-endian `i32` sizes, then one little-endian
   `f64` per cell, in array order.

The model is split into modules, one per stage:

- `VdbTypes`: coordinates, samples, metadata values and errors.
- `Aabb`: the accumulator class and its specification on values.
- `Scan`: the first loop.
- `Dimensions`: the choice of shape and the cell count.
- `Layout`: the row-major index.
- `Raster`: the second loop.
- `Encoding`: the file format.
- `Pipeline`: the whole run.

Rust's integer semantics are written out where they matter:

- `f64 as usize` saturates.
- `usize::MAX + 1` panics.
- A negative `i32 as usize` wraps (metadata sizes, and voxel positions taken as `i32`).
- The `usize` product of the sizes may overflow.
- `vec!` refuses more than `isize::MAX / 8` cells.
- `usize as i32` truncates in the header.

Every panic and every "log an error and return" of the source is modelled as an
`Err` value that ends the run without a file.

The empty grid (bounding-box mode, no `Voxel` sample) follows the code. A
degenerate shape such as size 0 would change the behaviour. In the code the box
stays at the infinities and `-inf as usize` saturates to 0, so the shape is
1x1x1 and the file holds one 0.0 cell. `Pipeline.EmptyGridBoxMode` proves this.

The scatter's bounds check is where the code is unsafe. The model adds a
per-axis bounds check that aborts the run with `IndexOutOfRange`. The code only
panics when the flat index passes the end of the array (see "Findings"). The
model records the code as written in `Layout.SourceWriteIndex`.

## Model

| member | source | states |
|---|---|---|
| Aabb.AABB.constructor | src/main.rs:16-21 | a new accumulator has min at +inf and max at -inf on every axis (`EmptyBox`) |
| Aabb.AABB.Extend | src/main.rs:24-32 | the six fields become the componentwise min/max with the point; the new state is `Extended` of the old one |
| Aabb.Extended | src/main.rs:24-32 | the extended box contains the point, encloses the old box, and each corner component is either the old one or the point's |
| Aabb.ExtendedIdempotent | src/main.rs:24-32 | extending twice with the same point equals extending once |
| Aabb.ExtendedCommutes | src/main.rs:24-32 | two extensions give the same box in either order |
| Aabb.ExtendAllBounds | src/main.rs:88-96 | the accumulated box encloses the start box and contains every point fed to it |
| Aabb.ExtendAllAttained | src/main.rs:88-96 | every corner component of the accumulated box is the starting one or a component of some fed point |
| Aabb.ExtendAllOrderIndependent | src/main.rs:88-96 | the final box depends only on the set of points fed, not on their order or repetition |
| Aabb.ExtendAllFromEmpty | src/main.rs:16-21 | starting at the infinities: no point leaves the box at the infinities; otherwise min/max on each axis are the least/greatest component among the points |
| Scan.VoxelCoordsMembers | src/main.rs:89-95 | a coordinate is collected exactly when some `Voxel`-level sample carries it |
| Scan.NoVoxelNoCoords | src/main.rs:89-95 | a stream without `Voxel`-level samples collects nothing |
| Scan.VoxelCoordsAppend | src/main.rs:89-95 | collecting distributes over concatenation of sample streams |
| Scan.NonVoxelIgnored | src/main.rs:93-95 | a non-voxel sample anywhere in the stream changes neither count nor box |
| Scan.ScannedBoxContainsVoxels | src/main.rs:87-96 | the scanned box contains every voxel coordinate and is the default box when there is no voxel |
| Scan.ScanVoxels | src/main.rs:87-96 | the loop leaves `nb_voxels` equal to the number of voxel samples and the box equal to the extension of the default box by their coordinates |
| Dimensions.UsizeOfI32 | src/main.rs:107 | `i32 as usize` is below 2^64 and congruent to the input modulo 2^64 |
| Dimensions.UsizeOfF64 | src/main.rs:114 | `f64 as usize` saturates: -inf and values at or below 0 give 0, +inf and values at or above `usize::MAX` give `usize::MAX`, and values in between are kept |
| Dimensions.UsizeOfF64Monotone | src/main.rs:114 | the saturating cast keeps the order of its inputs |
| Dimensions.BoxDims | src/main.rs:114 | bounding-box mode fails with `ArithmeticOverflow` exactly when some axis's cast maximum is `usize::MAX`, and otherwise each size is that cast plus one |
| Dimensions.ResolveDims | src/main.rs:99-115 | a missing key gives `MetadataKeyNotFound`, a non-`Vec3i` gives `MetadataWrongType`, a `Vec3i` gives its three components cast `as usize`, and bounding-box mode is `BoxDims` of the scanned box, failing only with the `+ 1` overflow |
| Dimensions.MetadataModeDims | src/main.rs:106-107 | a `Vec3i` of non-negative components is the shape unchanged |
| Dimensions.BoxModeDims | src/main.rs:113-115 | bounding-box mode over scanned points never fails, gives 1x1x1 with no point, every coordinate is below its axis size, and each size is 1 or one more than some coordinate |
| Dimensions.CellCount | src/main.rs:118-121 | the allocation succeeds exactly when the product does not overflow `usize` and stays within the `Vec` capacity limit, and then yields the product |
| Layout.FlatIndex | src/main.rs:128 | non-negative coordinates give a non-negative index, and an in-bounds coordinate has an index below `size_x*size_y*size_z` |
| Layout.UnflattenFlatIndex | src/main.rs:128 | the coordinates of a cell are recovered from its index by div/mod |
| Layout.FlatIndexInjective | src/main.rs:128 | distinct in-bounds coordinates get distinct cells |
| Layout.FlatIndexCorners | src/main.rs:128 | the origin is cell 0 and the opposite corner is the last cell |
| Layout.SourceWriteAliases | src/main.rs:125-131 | as written, `(size_x, 0, 0)` is accepted although out of bounds and lands in the cell of `(0, 1, 0)` |
| Layout.SourceWritesForeignCell | src/main.rs:125-131 | as written, shape (4,4,4) and voxel (10,0,0) write cell 10, the cell of (2,2,0) |
| Layout.SourceWriteIndex | src/main.rs:125-131 | as written (debug build): a voxel is stored exactly when its coordinates are non-negative and its flat index is below the array length, and then at that index, which never exceeds the array; every in-bounds voxel is stored at its row-major index |
| Raster.Zeros | src/main.rs:121 | `vec![0.0; n]` has length n and holds 0.0 in every cell |
| Raster.Step | src/main.rs:124-132 | one iteration fails exactly on an out-of-bounds voxel, naming it; otherwise only the voxel's cell changes, to its value |
| Raster.Scatter | src/main.rs:123-133 | the scatter succeeds exactly when every voxel is in bounds and keeps the array length |
| Raster.ScatterReportsFirstOffender | src/main.rs:123-133 | a failed scatter reports the first out-of-bounds voxel, every voxel before it being in bounds |
| Raster.ScatterErrPersists | src/main.rs:123-133 | once a prefix fails, the whole scatter fails with the same error |
| Raster.ScatterAppend | src/main.rs:123-133 | scattering a concatenation is scattering each part in turn |
| Raster.ScatterLastWriteWins | src/main.rs:131 | each cell holds the value of the last voxel written to it, or its initial value when none is |
| Raster.MaxDensity | src/main.rs:122-130 | the maximum is non-negative, bounds every voxel value, and is 0.0 or the value of some voxel |
| Raster.MaxDensityAppend | src/main.rs:122-130 | the maximum over two streams is the larger of their maxima |
| Raster.Rasterize | src/main.rs:121-133 | the loop over a fresh zero array gives the scatter's cells and the maximum, or stops with the scatter's error |
| Encoding.TruncateToI32 | src/main.rs:139-141 | `usize as i32` is congruent to its input modulo 2^32 and is the identity on `i32` values |
| Encoding.I32Le | src/main.rs:139-141 | the four bytes are the base-256 digits, low first, of the 32-bit two's complement pattern of the value, and the top bit of the last byte is the sign |
| Encoding.I32RoundTrip | src/main.rs:139-141 | a little-endian `i32` reads back as itself |
| Encoding.EncodeDensityFile | src/main.rs:138-144 | the file is the three-size header followed by one `f64` record per cell, in order |
| Encoding.EncodedLength | src/main.rs:138-144 | the file is 12 + 8 * cells bytes long |
| Encoding.DecodeEncode | src/main.rs:138-144 | reading the file back gives the cells and each size truncated to `i32`, exact precisely when the size is below 2^31 |
| Encoding.WriteDensityFile | src/main.rs:139-144 | the write loop produces exactly the encoded file of the array |
| Pipeline.Convert | src/main.rs:77-144 | an unknown grid, a missing key or a non-`Vec3i` key each give their error; a success counts the voxels and had every voxel in bounds |
| Pipeline.Run | src/main.rs:77-144 | the imperative run (scan object, allocation, loops, writer) computes exactly `Convert` |
| Pipeline.ConvertedFile | src/main.rs:121-144 | a successful file has 12 + 8n bytes, the header, 0.0 in every unwritten cell, and the last written value elsewhere; the logged maximum bounds every voxel |
| Pipeline.BoxModeVoxelsInBounds | src/main.rs:113-131 | in bounding-box mode the shape always resolves and every voxel with non-negative coordinates lies inside it |
| Pipeline.BoxModeNeverOutOfRange | src/main.rs:113-131 | in bounding-box mode, voxels with non-negative coordinates never end the run with `IndexOutOfRange` |
| Pipeline.BoxModeRun | src/main.rs:87-144 | in bounding-box mode over voxels of non-negative coordinates, the shape is `max as usize + 1` of the scanned box on each axis, and the run succeeds exactly when the allocator accepts that shape, otherwise failing with the allocation's error |
| Pipeline.ConvertIgnoresNonVoxel | src/main.rs:89-124 | a non-voxel sample anywhere in the stream leaves the whole result unchanged |
| Pipeline.MetadataModeRun | src/main.rs:99-144 | in metadata mode with a non-negative `Vec3i` whose cell count the allocator accepts, the run succeeds exactly when every voxel fits that shape, and then has that shape; otherwise it ends with `IndexOutOfRange` naming the first voxel outside it |
| Pipeline.EmptyGridBoxMode | src/main.rs:88-121 | with no voxel, bounding-box mode writes a 1x1x1 file holding one 0.0 |
| Pipeline.SingleVoxelScenario | src/main.rs:87-144 | one voxel (1,2,3) = 5.0 gives shape (2,3,4), count 1, maximum 5.0 and 5.0 in cell 23 of 24 |
| Pipeline.MetadataOutOfRangeScenario | src/main.rs:99-133 | shape (4,4,4) from metadata with a voxel at (10,0,0) ends the run with `IndexOutOfRange` |

## Left out

- Command-line parsing, logging and the metadata listing (src/main.rs:35-75) are not modelled. Their only effect on the core is the grid name and the optional metadata key, which are parameters.
- File I/O is not modelled: opening the input, creating the output, and the `unwrap`/`?` failures of those calls. The file is modelled as the sequence of records written.
- The VDB reader (`VdbReader`, `read_grid`, `grid.iter()`) is not part of this model. The loaded grid is given as the sequence of samples that its iteration yields, the set of grid names and the metadata map. A failure of `read_grid` is not modelled.
- Floating point is not modelled. Density values are reals, and each cell record stands for the 8-byte IEEE-754 pattern of its value. NaN, the `f32`-to-`f64` widening and the semantics of `f64::max` on NaN are left out.
- Scan.ScanVoxels: `nb_voxels` is an `i32` in the source. Its overflow beyond 2^31 - 1 voxels is not modelled; the count is a `nat`.
- Rust's debug and release builds differ here. Overflow of the `usize` arithmetic is modelled as the debug-build panic (`ArithmeticOverflow`), and a voxel with a negative coordinate panics there. A release build does not check that overflow: with shape (4,4,4) the voxel (-1,1,0) wraps to index 3 and overwrites the cell of (3,0,0). That release-build behaviour is left out.
- Voxel positions are taken to be `i32` coordinates, as the index space of the grid. Their type comes from the VDB reader, which is not part of this model. If the reader yielded floating-point positions, `pos[0] as usize` at src/main.rs:125-127 would saturate a negative coordinate to 0 instead of wrapping it, and the as-written case of a negative coordinate would differ.
- Allocation failure below the capacity limit (out of memory) is not modelled.
- The source distinguishes "log an error and exit with success" from a panic. Both are modelled as an `Err` that ends the run without output.
- Pipeline.Convert and Raster.Scatter use the per-axis bounds check and abort at the first offending voxel. The source as written does not check per axis (see "Findings"); skipping the offending voxel was the other possible policy and is not modelled.

## Findings

| source | as written | input that shows it | evidently intended | confidence | as-written member | corrected member |
|---|---|---|---|---|---|---|
| src/main.rs:125-131 | only the flat index is bounded (by the panic of `density[idx]`), so a coordinate past the end of a row or column is stored in another voxel's cell | metadata `Vec3i` (4,4,4) and one voxel at (10,0,0): index 10 < 64 is written, and cell 10 is the cell of (2,2,0) | a voxel outside the chosen shape is reported as out of range and never overwrites another cell | not executed | Layout.SourceWritesForeignCell | Pipeline.MetadataOutOfRangeScenario |
