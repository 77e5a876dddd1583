/** The second pass over the grid: the dense scatter and the running maximum (src/main.rs:120-133). */
module Raster {
  import opened VdbTypes
  import opened Dimensions
  import opened Layout

  /** `vec![0.0; n]`. */
  function Zeros(n: nat): (r: seq<real>)
    ensures |r| == n && forall k :: 0 <= k < n ==> r[k] == 0.0
  {
    seq(n, _ => 0.0)
  }

  /** Sample `s` stores its value into cell `k`. */
  predicate WritesTo(d: Dims, s: Sample, k: int)
  {
    s.level == Voxel && InBounds(d, s.coord) && FlatIndex(d, s.coord) == k
  }

  /**
   * One iteration of the scatter loop: other levels are skipped, a voxel
   * outside the array is reported, any other voxel overwrites its cell.
   */
  function Step(cells: seq<real>, d: Dims, s: Sample): (r: Result<seq<real>>)
    requires |cells| == d.sx * d.sy * d.sz
    ensures r.Err? <==> s.level == Voxel && !InBounds(d, s.coord)
    ensures r.Err? ==> r.error == IndexOutOfRange(s.coord)
    ensures r.Ok? ==> |r.value| == |cells|
    ensures r.Ok? ==> forall k :: 0 <= k < |cells| ==>
      r.value[k] == if WritesTo(d, s, k) then s.value else cells[k]
  {
    if s.level != Voxel then Ok(cells)
    else if !InBounds(d, s.coord) then Err(IndexOutOfRange(s.coord))
    else Ok(cells[FlatIndex(d, s.coord) := s.value])
  }

  /** Every `Voxel`-level sample of `s` lies inside the array. */
  predicate AllVoxelsInBounds(d: Dims, s: seq<Sample>)
  {
    forall i :: 0 <= i < |s| && s[i].level == Voxel ==> InBounds(d, s[i].coord)
  }

  /** The scatter loop over the samples, in iteration order. */
  function Scatter(cells: seq<real>, d: Dims, s: seq<Sample>): (r: Result<seq<real>>)
    requires |cells| == d.sx * d.sy * d.sz
    ensures r.Ok? <==> AllVoxelsInBounds(d, s)
    ensures r.Ok? ==> |r.value| == |cells|
    decreases |s|
  {
    if s == [] then Ok(cells)
    else
      var init := s[..|s| - 1];
      assert forall i :: 0 <= i < |init| ==> init[i] == s[i];
      match Scatter(cells, d, init)
      case Err(e) => Err(e)
      case Ok(prev) => Step(prev, d, s[|s| - 1])
  }

  /** A failed scatter names the first voxel outside the array. */
  lemma {:induction false} ScatterReportsFirstOffender(cells: seq<real>, d: Dims, s: seq<Sample>)
    requires |cells| == d.sx * d.sy * d.sz
    requires Scatter(cells, d, s).Err?
    ensures exists i ::
      && 0 <= i < |s| && s[i].level == Voxel && !InBounds(d, s[i].coord)
      && Scatter(cells, d, s).error == IndexOutOfRange(s[i].coord)
      && AllVoxelsInBounds(d, s[..i])
    decreases |s|
  {
    var n := |s| - 1;
    var init := s[..n];
    if Scatter(cells, d, init).Err? {
      ScatterReportsFirstOffender(cells, d, init);
      var i :| 0 <= i < |init| && init[i].level == Voxel && !InBounds(d, init[i].coord)
        && Scatter(cells, d, init).error == IndexOutOfRange(init[i].coord)
        && AllVoxelsInBounds(d, init[..i]);
      assert s[i] == init[i] && s[..i] == init[..i];
    } else {
      assert s[..n] == init;
    }
  }

  /** Once the scatter has failed on a prefix, it fails with the same error. */
  lemma {:induction false} ScatterErrPersists(cells: seq<real>, d: Dims, s: seq<Sample>, i: nat)
    requires |cells| == d.sx * d.sy * d.sz
    requires i <= |s| && Scatter(cells, d, s[..i]).Err?
    ensures Scatter(cells, d, s) == Scatter(cells, d, s[..i])
    decreases |s| - i
  {
    if i < |s| {
      ScatterErrPersists(cells, d, s, i + 1);
      assert s[..i + 1][..i] == s[..i];
    } else {
      assert s[..i] == s;
    }
  }

  /** Scattering two streams in turn is scattering their concatenation. */
  lemma {:induction false} ScatterAppend(cells: seq<real>, d: Dims, a: seq<Sample>, b: seq<Sample>)
    requires |cells| == d.sx * d.sy * d.sz
    ensures Scatter(cells, d, a + b) ==
      match Scatter(cells, d, a)
      case Err(e) => Err(e)
      case Ok(mid) => Scatter(mid, d, b)
    decreases |b|
  {
    if b == [] {
      assert a + b == a;
    } else {
      var n := |b| - 1;
      ScatterAppend(cells, d, a, b[..n]);
      assert (a + b)[..|a + b| - 1] == a + b[..n];
      assert (a + b)[|a + b| - 1] == b[n];
    }
  }

  /** Sample `i` writes cell `k` and no later sample does. */
  predicate IsLastWriter(d: Dims, s: seq<Sample>, i: int, k: int)
    requires 0 <= i < |s|
  {
    WritesTo(d, s[i], k) && forall j :: i < j < |s| ==> !WritesTo(d, s[j], k)
  }

  /**
   * After a successful scatter each cell holds the value of the last voxel
   * written to it, or its initial value when no voxel was written to it.
   */
  lemma {:induction false} ScatterLastWriteWins(cells: seq<real>, d: Dims, s: seq<Sample>, k: int)
    requires |cells| == d.sx * d.sy * d.sz && 0 <= k < |cells|
    requires Scatter(cells, d, s).Ok?
    ensures (forall i :: 0 <= i < |s| ==> !WritesTo(d, s[i], k)) ==>
      Scatter(cells, d, s).value[k] == cells[k]
    ensures forall i :: 0 <= i < |s| && IsLastWriter(d, s, i, k) ==>
      Scatter(cells, d, s).value[k] == s[i].value
    decreases |s|
  {
    if s != [] {
      var n := |s| - 1;
      var init := s[..n];
      assert forall i :: 0 <= i < n ==> init[i] == s[i];
      var prev := Scatter(cells, d, init).value;
      assert Scatter(cells, d, s) == Step(prev, d, s[n]);
      var last := Scatter(cells, d, s).value;
      assert last[k] == if WritesTo(d, s[n], k) then s[n].value else prev[k];
      if WritesTo(d, s[n], k) {
        assert IsLastWriter(d, s, n, k);
      } else {
        ScatterLastWriteWins(cells, d, init, k);
        forall i | 0 <= i < n && IsLastWriter(d, s, i, k)
          ensures IsLastWriter(d, init, i, k)
        {
        }
      }
    }
  }

  /** `max_density`, starting at `0.0` and raised by every `Voxel`-level value. */
  function MaxDensity(s: seq<Sample>): (m: real)
    ensures m >= 0.0
    ensures forall i :: 0 <= i < |s| && s[i].level == Voxel ==> s[i].value <= m
    ensures m == 0.0 || exists i :: 0 <= i < |s| && s[i].level == Voxel && s[i].value == m
    decreases |s|
  {
    if s == [] then 0.0
    else
      var init := s[..|s| - 1];
      assert forall i :: 0 <= i < |init| ==> init[i] == s[i];
      var m0 := MaxDensity(init);
      var t := s[|s| - 1];
      if t.level == Voxel && t.value > m0 then t.value else m0
  }

  /** The maximum over two streams is the larger of their maxima. */
  lemma {:induction false} MaxDensityAppend(a: seq<Sample>, b: seq<Sample>)
    ensures MaxDensity(a + b) == if MaxDensity(a) >= MaxDensity(b) then MaxDensity(a) else MaxDensity(b)
    decreases |b|
  {
    if b == [] {
      assert a + b == a;
    } else {
      var n := |b| - 1;
      MaxDensityAppend(a, b[..n]);
      assert (a + b)[..|a + b| - 1] == a + b[..n];
      assert (a + b)[|a + b| - 1] == b[n];
      var ma, mb, mab := MaxDensity(a), MaxDensity(b[..n]), MaxDensity(a + b[..n]);
      var t := b[n];
      assert MaxDensity(a + b) == if t.level == Voxel && t.value > mab then t.value else mab;
      assert MaxDensity(b) == if t.level == Voxel && t.value > mb then t.value else mb;
    }
  }

  /**
   * The scatter loop of the source on a fresh zero-filled array: it
   * stores every voxel at its row-major index and tracks the maximum, or
   * stops at the first voxel outside the array.
   */
  method Rasterize(d: Dims, n: nat, samples: seq<Sample>) returns (density: array<real>, outcome: Result<real>)
    requires n == d.sx * d.sy * d.sz
    ensures fresh(density) && density.Length == n
    ensures outcome.Ok? <==> Scatter(Zeros(n), d, samples).Ok?
    ensures outcome.Ok? ==>
      density[..] == Scatter(Zeros(n), d, samples).value && outcome.value == MaxDensity(samples)
    ensures outcome.Err? ==> outcome.error == Scatter(Zeros(n), d, samples).error
  {
    density := new real[n](_ => 0.0);
    assert density[..] == Zeros(n);
    var maxDensity := 0.0;
    for i := 0 to |samples|
      invariant Scatter(Zeros(n), d, samples[..i]) == Ok(density[..])
      invariant maxDensity == MaxDensity(samples[..i])
    {
      assert samples[..i + 1][..i] == samples[..i];
      var s := samples[i];
      if s.level == Voxel {
        if !InBounds(d, s.coord) {
          ScatterErrPersists(Zeros(n), d, samples, i + 1);
          outcome := Err(IndexOutOfRange(s.coord));
          return;
        }
        var idx := FlatIndex(d, s.coord);
        maxDensity := if s.value > maxDensity then s.value else maxDensity;
        density[idx] := s.value;
      }
    }
    assert samples[..|samples|] == samples;
    outcome := Ok(maxDensity);
  }
}
