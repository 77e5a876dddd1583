/** The first pass over the grid: voxel count and bounding box (src/main.rs:87-96). */
module Scan {
  import opened VdbTypes
  import opened Aabb

  /** The coordinates of the `Voxel`-level samples, in iteration order. */
  function VoxelCoords(s: seq<Sample>): (r: seq<Coord>)
    ensures |r| <= |s|
    decreases |s|
  {
    if s == [] then []
    else VoxelCoords(s[..|s| - 1]) + (if s[|s| - 1].level == Voxel then [s[|s| - 1].coord] else [])
  }

  /** A coordinate is collected exactly when some `Voxel`-level sample carries it. */
  lemma {:induction false} VoxelCoordsMembers(s: seq<Sample>)
    ensures forall c :: c in VoxelCoords(s) <==>
      exists i :: 0 <= i < |s| && s[i].level == Voxel && s[i].coord == c
  {
    if s != [] {
      var init := s[..|s| - 1];
      VoxelCoordsMembers(init);
      forall c ensures c in VoxelCoords(s) <==>
        exists i :: 0 <= i < |s| && s[i].level == Voxel && s[i].coord == c
      {
        if c in VoxelCoords(init) {
          var i :| 0 <= i < |init| && init[i].level == Voxel && init[i].coord == c;
          assert s[i] == init[i];
        }
        if exists i :: 0 <= i < |s| && s[i].level == Voxel && s[i].coord == c {
          var i :| 0 <= i < |s| && s[i].level == Voxel && s[i].coord == c;
          if i < |s| - 1 {
            assert init[i] == s[i];
          }
        }
      }
    }
  }

  /** A stream without `Voxel`-level samples yields no coordinate. */
  lemma {:induction false} NoVoxelNoCoords(s: seq<Sample>)
    requires forall i :: 0 <= i < |s| ==> s[i].level != Voxel
    ensures VoxelCoords(s) == []
    decreases |s|
  {
    if s != [] {
      NoVoxelNoCoords(s[..|s| - 1]);
    }
  }

  /** Collecting distributes over concatenation of sample streams. */
  lemma {:induction false} VoxelCoordsAppend(s: seq<Sample>, t: seq<Sample>)
    ensures VoxelCoords(s + t) == VoxelCoords(s) + VoxelCoords(t)
    decreases |t|
  {
    if t == [] {
      assert s + t == s;
    } else {
      var n := |t| - 1;
      VoxelCoordsAppend(s, t[..n]);
      assert (s + t)[..|s + t| - 1] == s + t[..n];
      assert (s + t)[|s + t| - 1] == t[n];
    }
  }

  /** A sample of any other level, wherever it stands, changes neither the count nor the box. */
  lemma NonVoxelIgnored(s: seq<Sample>, u: Sample, t: seq<Sample>)
    requires u.level != Voxel
    ensures VoxelCoords(s + [u] + t) == VoxelCoords(s + t)
  {
    VoxelCoordsAppend(s + [u], t);
    VoxelCoordsAppend(s, [u]);
    VoxelCoordsAppend(s, t);
    assert [u][..0] == [];
  }

  /**
   * The scan's box contains every `Voxel`-level coordinate; with no such
   * sample it is still `AABB::default()`.
   */
  lemma ScannedBoxContainsVoxels(s: seq<Sample>)
    ensures forall i :: 0 <= i < |s| && s[i].level == Voxel ==>
      Contains(ExtendAll(EmptyBox, VoxelCoords(s)), s[i].coord)
    ensures (forall i :: 0 <= i < |s| ==> s[i].level != Voxel) ==>
      ExtendAll(EmptyBox, VoxelCoords(s)) == EmptyBox
  {
    var pts := VoxelCoords(s);
    VoxelCoordsMembers(s);
    ExtendAllBounds(EmptyBox, pts);
    forall i | 0 <= i < |s| && s[i].level == Voxel
      ensures Contains(ExtendAll(EmptyBox, pts), s[i].coord)
    {
      assert s[i].coord in pts;
      var j :| 0 <= j < |pts| && pts[j] == s[i].coord;
    }
  }

  /**
   * The first loop of the conversion: every `Voxel`-level sample widens
   * the box and is counted; other levels are skipped with a warning.
   */
  method ScanVoxels(samples: seq<Sample>) returns (nbVoxels: nat, aabb: AABB)
    ensures fresh(aabb)
    ensures aabb.Value() == ExtendAll(EmptyBox, VoxelCoords(samples))
    ensures nbVoxels == |VoxelCoords(samples)|
  {
    nbVoxels := 0;
    aabb := new AABB();
    for i := 0 to |samples|
      invariant aabb.Value() == ExtendAll(EmptyBox, VoxelCoords(samples[..i]))
      invariant nbVoxels == |VoxelCoords(samples[..i])|
    {
      assert samples[..i + 1][..i] == samples[..i];
      var s := samples[i];
      assert VoxelCoords(samples[..i + 1])
          == VoxelCoords(samples[..i]) + (if s.level == Voxel then [s.coord] else []);
      if s.level == Voxel {
        ExtendAllSnoc(EmptyBox, VoxelCoords(samples[..i]), s.coord);
        aabb.Extend(s.coord);
        nbVoxels := nbVoxels + 1;
      } else {
        assert VoxelCoords(samples[..i + 1]) == VoxelCoords(samples[..i]);
      }
    }
    assert samples[..|samples|] == samples;
  }
}
