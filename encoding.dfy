/** The `.density` file: three little-endian `i32` sizes, then one `f64` record per cell (src/main.rs:138-144). */
module Encoding {
  import opened VdbTypes
  import opened Dimensions

  const TWO_32: int := 0x1_0000_0000

  /** Rust's truncating `n as i32` for a `usize`: the low 32 bits, read as two's complement. */
  function TruncateToI32(n: int): (r: I32)
    ensures (r - n) % TWO_32 == 0
    ensures -0x8000_0000 <= n < 0x8000_0000 ==> r == n
  {
    var u := n % TWO_32;
    if u < 0x8000_0000 then u else u - TWO_32
  }

  /** `write_i32::<LittleEndian>`: the 32-bit two's complement pattern of `v`, low byte first. */
  function I32Le(v: I32): (b: seq<Byte>)
    ensures |b| == 4
    ensures b[0] as int + 0x100 * b[1] as int + 0x1_0000 * b[2] as int + 0x100_0000 * b[3] as int == if v < 0 then v + TWO_32 else v
    ensures b[3] >= 0x80 <==> v < 0
  {
    var u := if v < 0 then v + TWO_32 else v;
    var u1 := u / 256;
    var u2 := u1 / 256;
    var u3 := u2 / 256;
    [u % 256, u1 % 256, u2 % 256, u3]
  }

  /** Reading back an `i32` written low byte first. */
  function I32FromLe(b: seq<Byte>): I32
    requires |b| == 4
  {
    var u: int := b[0] as int + 256 * (b[1] as int + 256 * (b[2] as int + 256 * b[3] as int));
    if u < 0x8000_0000 then u else u - TWO_32
  }

  /** Every `i32` survives being written and read back. */
  lemma I32RoundTrip(v: I32)
    ensures I32FromLe(I32Le(v)) == v
  {
    var u := if v < 0 then v + TWO_32 else v;
    var u1 := u / 256;
    var u2 := u1 / 256;
    var u3 := u2 / 256;
    assert u == u % 256 + 256 * u1;
    assert u1 == u1 % 256 + 256 * u2;
    assert u2 == u2 % 256 + 256 * u3;
  }

  /**
   * One record of the output: a 4-byte integer of the header, or one
   * 8-byte IEEE-754 cell whose bit pattern is not modelled.
   */
  datatype Record = Int32Le(bytes: seq<Byte>) | Float64Le(value: real)

  function Width(r: Record): nat
  {
    match r
    case Int32Le(b) => |b|
    case Float64Le(_) => 8
  }

  /** The number of bytes a record stream occupies in the file. */
  function ByteLength(rs: seq<Record>): nat
    decreases |rs|
  {
    if rs == [] then 0 else ByteLength(rs[..|rs| - 1]) + Width(rs[|rs| - 1])
  }

  lemma {:induction false} ByteLengthAppend(a: seq<Record>, b: seq<Record>)
    ensures ByteLength(a + b) == ByteLength(a) + ByteLength(b)
    decreases |b|
  {
    if b == [] {
      assert a + b == a;
    } else {
      var n := |b| - 1;
      ByteLengthAppend(a, b[..n]);
      assert (a + b)[..|a + b| - 1] == a + b[..n];
    }
  }

  /** The three sizes, each truncated to `i32` and written low byte first. */
  function Header(d: Dims): seq<Record>
  {
    [Int32Le(I32Le(TruncateToI32(d.sx))), Int32Le(I32Le(TruncateToI32(d.sy))), Int32Le(I32Le(TruncateToI32(d.sz)))]
  }

  function CellRecords(cells: seq<real>): (rs: seq<Record>)
    ensures |rs| == |cells|
    ensures forall k :: 0 <= k < |cells| ==> rs[k] == Float64Le(cells[k])
  {
    seq(|cells|, k requires 0 <= k < |cells| => Float64Le(cells[k]))
  }

  lemma {:induction false} CellRecordsLength(cells: seq<real>)
    ensures ByteLength(CellRecords(cells)) == 8 * |cells|
    decreases |cells|
  {
    if cells != [] {
      var n := |cells| - 1;
      CellRecordsLength(cells[..n]);
      assert CellRecords(cells)[..n] == CellRecords(cells[..n]);
    }
  }

  /** The whole file: the header, then the cells in array order, with nothing between or after. */
  function EncodeDensityFile(d: Dims, cells: seq<real>): (out: seq<Record>)
    ensures |out| == 3 + |cells|
    ensures out[..3] == Header(d)
    ensures forall k :: 0 <= k < |cells| ==> out[3 + k] == Float64Le(cells[k])
  {
    Header(d) + CellRecords(cells)
  }

  /** The file is 12 bytes of header plus 8 bytes per cell. */
  lemma EncodedLength(d: Dims, cells: seq<real>)
    ensures ByteLength(EncodeDensityFile(d, cells)) == 12 + 8 * |cells|
  {
    ByteLengthAppend(Header(d), CellRecords(cells));
    CellRecordsLength(cells);
    var h := Header(d);
    assert h[..|h| - 1] == h[..2] && h[..2][..1] == h[..1] && h[..1][..0] == [];
    assert ByteLength(h[..1]) == 4;
    assert ByteLength(h[..2]) == 8;
    assert ByteLength(h) == 12;
  }

  /** What a reader of the file recovers: three `i32` sizes and the cell values. */
  datatype DecodedFile = DecodedFile(sx: I32, sy: I32, sz: I32, cells: seq<real>)

  /** A reader of the format; it refuses a stream that does not have the layout above. */
  function DecodeDensityFile(rs: seq<Record>): Option<DecodedFile>
  {
    if |rs| < 3 then None
    else if !(rs[0].Int32Le? && |rs[0].bytes| == 4 && rs[1].Int32Le? && |rs[1].bytes| == 4
              && rs[2].Int32Le? && |rs[2].bytes| == 4) then None
    else if exists k :: 3 <= k < |rs| && !rs[k].Float64Le? then None
    else Some(DecodedFile(I32FromLe(rs[0].bytes), I32FromLe(rs[1].bytes), I32FromLe(rs[2].bytes),
                          seq(|rs| - 3, k requires 0 <= k < |rs| - 3 => rs[3 + k].value)))
  }

  /**
   * Reading the file back gives every cell value in order, and each size
   * as truncated to `i32`; a size is recovered exactly when it is below 2^31.
   */
  lemma DecodeEncode(d: Dims, cells: seq<real>)
    ensures DecodeDensityFile(EncodeDensityFile(d, cells))
         == Some(DecodedFile(TruncateToI32(d.sx), TruncateToI32(d.sy), TruncateToI32(d.sz), cells))
    ensures DecodeDensityFile(EncodeDensityFile(d, cells)).value.sx == d.sx <==> d.sx < 0x8000_0000
    ensures DecodeDensityFile(EncodeDensityFile(d, cells)).value.sy == d.sy <==> d.sy < 0x8000_0000
    ensures DecodeDensityFile(EncodeDensityFile(d, cells)).value.sz == d.sz <==> d.sz < 0x8000_0000
  {
    var out := EncodeDensityFile(d, cells);
    I32RoundTrip(TruncateToI32(d.sx));
    I32RoundTrip(TruncateToI32(d.sy));
    I32RoundTrip(TruncateToI32(d.sz));
    assert out[0] == Header(d)[0] && out[1] == Header(d)[1] && out[2] == Header(d)[2];
    assert forall k :: 3 <= k < |out| ==> out[k] == Float64Le(cells[k - 3]);
    assert seq(|out| - 3, k requires 0 <= k < |out| - 3 => out[3 + k].value) == cells;
  }

  /** The write loop: the header, then each cell of the array in order. */
  method WriteDensityFile(d: Dims, density: array<real>) returns (out: seq<Record>)
    ensures out == EncodeDensityFile(d, density[..])
  {
    out := [];
    out := out + [Int32Le(I32Le(TruncateToI32(d.sx)))];
    out := out + [Int32Le(I32Le(TruncateToI32(d.sy)))];
    out := out + [Int32Le(I32Le(TruncateToI32(d.sz)))];
    for i := 0 to density.Length
      invariant out == Header(d) + CellRecords(density[..i])
    {
      assert CellRecords(density[..i + 1]) == CellRecords(density[..i]) + [Float64Le(density[i])];
      out := out + [Float64Le(density[i])];
    }
    assert density[..density.Length] == density[..];
  }
}
