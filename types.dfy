/** Values shared by every stage of the sparse-to-dense conversion. */
module VdbTypes {

  /** A value of Rust's `i32`: the type of voxel coordinates and of `Vec3i` components. */
  type I32 = x: int | -0x8000_0000 <= x < 0x8000_0000

  /** One byte of the output file. */
  type Byte = b: int | 0 <= b < 256

  /** A voxel position in the sparse grid's index space; it may be negative. */
  datatype Coord = Coord(x: I32, y: I32, z: I32)

  datatype Axis = X | Y | Z

  /** The component of `c` on axis `a` (`pos[0]`, `pos[1]`, `pos[2]` in the source). */
  function Comp(c: Coord, a: Axis): int
  {
    match a
    case X => c.x
    case Y => c.y
    case Z => c.z
  }

  /** The tier of the tree a sample comes from; only `Voxel` carries a value of one dense cell. */
  datatype Level = Voxel | InternalNode | RootNode

  /** One item of the grid's iteration: position, density (the `f32` value, widened) and level. */
  datatype Sample = Sample(coord: Coord, value: real, level: Level)

  /** A metadata value of the grid: the `Vec3i` variant the conversion reads, or any other variant. */
  datatype MetadataValue = Vec3i(v0: I32, v1: I32, v2: I32) | OtherValue(typeName: string)

  /** The ways a run ends without producing a file. */
  datatype Error =
    | GridNotFound(name: string)          // reported, the run ends
    | MetadataKeyNotFound(key: string)    // reported, the run ends
    | MetadataWrongType(key: string)      // reported, the run ends
    | ArithmeticOverflow                  // a `usize` sum or product overflows (a panic)
    | CapacityOverflow                    // more cells than a `Vec<f64>` may hold (a panic)
    | IndexOutOfRange(coord: Coord)       // a voxel outside the dense array

  datatype Option<T> = None | Some(value: T)

  datatype Result<T> = Ok(value: T) | Err(error: Error)
}
