/** The bounding-box accumulator `AABB` of src/main.rs. */
module Aabb {
  import opened VdbTypes

  /**
   * One `f64` component of the box. The box only ever receives integer
   * voxel coordinates (exact in `f64`) and starts at the two infinities,
   * so an integer extended with both infinities is exact.
   */
  datatype Ext = NegInf | Fin(n: int) | PosInf

  predicate Le(a: Ext, b: Ext)
  {
    a.NegInf? || b.PosInf? || (a.Fin? && b.Fin? && a.n <= b.n)
  }

  /** `f64::min` on the values the box can hold. */
  function MinE(a: Ext, b: Ext): Ext
  {
    if Le(a, b) then a else b
  }

  /** `f64::max` on the values the box can hold. */
  function MaxE(a: Ext, b: Ext): Ext
  {
    if Le(a, b) then b else a
  }

  datatype Point3 = Point3(x: Ext, y: Ext, z: Ext)

  function At(p: Point3, a: Axis): Ext
  {
    match a
    case X => p.x
    case Y => p.y
    case Z => p.z
  }

  /** The value of an `AABB`: its two corners. */
  datatype Box = Box(min: Point3, max: Point3)

  /** `AABB::default()`: min at +infinity and max at -infinity on every axis. */
  const EmptyBox := Box(Point3(PosInf, PosInf, PosInf), Point3(NegInf, NegInf, NegInf))

  predicate ContainsOn(b: Box, c: Coord, a: Axis)
  {
    Le(At(b.min, a), Fin(Comp(c, a))) && Le(Fin(Comp(c, a)), At(b.max, a))
  }

  /** `min <= c <= max` on every axis. */
  predicate Contains(b: Box, c: Coord)
  {
    forall a: Axis :: ContainsOn(b, c, a)
  }

  predicate EnclosesOn(outer: Box, inner: Box, a: Axis)
  {
    Le(At(outer.min, a), At(inner.min, a)) && Le(At(inner.max, a), At(outer.max, a))
  }

  /** `outer` is at least as wide as `inner` on every axis. */
  predicate Encloses(outer: Box, inner: Box)
  {
    forall a: Axis :: EnclosesOn(outer, inner, a)
  }

  /** The box after `extend(v)`: the smallest widening of `b` that contains `v`. */
  function Extended(b: Box, v: Coord): (r: Box)
    ensures Contains(r, v)
    ensures Encloses(r, b)
    ensures forall a: Axis :: At(r.min, a) in {At(b.min, a), Fin(Comp(v, a))}
    ensures forall a: Axis :: At(r.max, a) in {At(b.max, a), Fin(Comp(v, a))}
  {
    Box(Point3(MinE(b.min.x, Fin(v.x)), MinE(b.min.y, Fin(v.y)), MinE(b.min.z, Fin(v.z))),
        Point3(MaxE(b.max.x, Fin(v.x)), MaxE(b.max.y, Fin(v.y)), MaxE(b.max.z, Fin(v.z))))
  }

  /** Extending twice with the same point is extending once. */
  lemma ExtendedIdempotent(b: Box, v: Coord)
    ensures Extended(Extended(b, v), v) == Extended(b, v)
  {
  }

  /** Two extensions may be done in either order. */
  lemma ExtendedCommutes(b: Box, u: Coord, v: Coord)
    ensures Extended(Extended(b, u), v) == Extended(Extended(b, v), u)
  {
  }

  /** The box after extending `b` with every point of `pts`, in order. */
  function ExtendAll(b: Box, pts: seq<Coord>): Box
    decreases |pts|
  {
    if pts == [] then b else Extended(ExtendAll(b, pts[..|pts| - 1]), pts[|pts| - 1])
  }

  /** Feeding one more point is one more `extend`. */
  lemma ExtendAllSnoc(b: Box, pts: seq<Coord>, c: Coord)
    ensures ExtendAll(b, pts + [c]) == Extended(ExtendAll(b, pts), c)
  {
    assert (pts + [c])[..|pts|] == pts;
  }

  lemma EnclosesTransitive(a: Box, b: Box, c: Box)
    requires Encloses(a, b) && Encloses(b, c)
    ensures Encloses(a, c)
  {
    forall ax: Axis ensures EnclosesOn(a, c, ax) {
      assert EnclosesOn(a, b, ax) && EnclosesOn(b, c, ax);
    }
  }

  lemma ContainsWidened(outer: Box, inner: Box, c: Coord)
    requires Encloses(outer, inner) && Contains(inner, c)
    ensures Contains(outer, c)
  {
    forall ax: Axis ensures ContainsOn(outer, c, ax) {
      assert EnclosesOn(outer, inner, ax) && ContainsOn(inner, c, ax);
    }
  }

  /** The accumulated box encloses the starting box and contains every point fed to it. */
  lemma {:induction false} ExtendAllBounds(b: Box, pts: seq<Coord>)
    ensures Encloses(ExtendAll(b, pts), b)
    ensures forall i :: 0 <= i < |pts| ==> Contains(ExtendAll(b, pts), pts[i])
  {
    if pts == [] {
      forall ax: Axis ensures EnclosesOn(b, b, ax) { }
    } else {
      var init := pts[..|pts| - 1];
      var r0 := ExtendAll(b, init);
      var r := ExtendAll(b, pts);
      ExtendAllBounds(b, init);
      EnclosesTransitive(r, r0, b);
      forall i | 0 <= i < |pts| ensures Contains(r, pts[i]) {
        if i < |pts| - 1 {
          assert pts[i] == init[i];
          ContainsWidened(r, r0, pts[i]);
        }
      }
    }
  }

  /** Every corner component of the accumulated box is the starting one or that of a point fed to it. */
  lemma {:induction false} ExtendAllAttained(b: Box, pts: seq<Coord>, a: Axis)
    ensures At(ExtendAll(b, pts).min, a) == At(b.min, a)
         || exists i :: 0 <= i < |pts| && At(ExtendAll(b, pts).min, a) == Fin(Comp(pts[i], a))
    ensures At(ExtendAll(b, pts).max, a) == At(b.max, a)
         || exists i :: 0 <= i < |pts| && At(ExtendAll(b, pts).max, a) == Fin(Comp(pts[i], a))
  {
    if pts != [] {
      var n := |pts| - 1;
      var init := pts[..n];
      ExtendAllAttained(b, init, a);
      var r0 := ExtendAll(b, init);
      var r := ExtendAll(b, pts);
      assert r == Extended(r0, pts[n]);
      if At(r.min, a) != Fin(Comp(pts[n], a)) && At(r.min, a) != At(b.min, a) {
        var i :| 0 <= i < n && At(r0.min, a) == Fin(Comp(init[i], a));
        assert pts[i] == init[i];
      }
      if At(r.max, a) != Fin(Comp(pts[n], a)) && At(r.max, a) != At(b.max, a) {
        var i :| 0 <= i < n && At(r0.max, a) == Fin(Comp(init[i], a));
        assert pts[i] == init[i];
      }
    }
  }

  lemma LeAntisymmetric(p: Ext, q: Ext)
    requires Le(p, q) && Le(q, p)
    ensures p == q
  {
  }

  lemma PointsEqual(p: Point3, q: Point3)
    requires forall a: Axis :: At(p, a) == At(q, a)
    ensures p == q
  {
    assert At(p, X) == At(q, X) && At(p, Y) == At(q, Y) && At(p, Z) == At(q, Z);
  }

  /**
   * The final box depends only on which points were fed, not on their
   * order nor on how often each one was fed.
   */
  lemma ExtendAllOrderIndependent(b: Box, p: seq<Coord>, q: seq<Coord>)
    requires forall c :: c in p <==> c in q
    ensures ExtendAll(b, p) == ExtendAll(b, q)
  {
    var rp, rq := ExtendAll(b, p), ExtendAll(b, q);
    ExtendAllBounds(b, p);
    ExtendAllBounds(b, q);
    forall a: Axis ensures At(rp.min, a) == At(rq.min, a) && At(rp.max, a) == At(rq.max, a) {
      ExtendAllAttained(b, p, a);
      ExtendAllAttained(b, q, a);
      assert EnclosesOn(rp, b, a) && EnclosesOn(rq, b, a);
      // each corner is bounded by the other box's corner
      if At(rp.min, a) != At(b.min, a) {
        var i :| 0 <= i < |p| && At(rp.min, a) == Fin(Comp(p[i], a));
        assert p[i] in q;
        var j :| 0 <= j < |q| && q[j] == p[i];
        assert ContainsOn(rq, q[j], a);
      }
      if At(rq.min, a) != At(b.min, a) {
        var j :| 0 <= j < |q| && At(rq.min, a) == Fin(Comp(q[j], a));
        assert q[j] in p;
        var i :| 0 <= i < |p| && p[i] == q[j];
        assert ContainsOn(rp, p[i], a);
      }
      LeAntisymmetric(At(rp.min, a), At(rq.min, a));
      if At(rp.max, a) != At(b.max, a) {
        var i :| 0 <= i < |p| && At(rp.max, a) == Fin(Comp(p[i], a));
        assert p[i] in q;
        var j :| 0 <= j < |q| && q[j] == p[i];
        assert ContainsOn(rq, q[j], a);
      }
      if At(rq.max, a) != At(b.max, a) {
        var j :| 0 <= j < |q| && At(rq.max, a) == Fin(Comp(q[j], a));
        assert q[j] in p;
        var i :| 0 <= i < |p| && p[i] == q[j];
        assert ContainsOn(rp, p[i], a);
      }
      LeAntisymmetric(At(rp.max, a), At(rq.max, a));
    }
    PointsEqual(rp.min, rq.min);
    PointsEqual(rp.max, rq.max);
  }

  /**
   * Starting from `AABB::default()`: with no point the box stays at the
   * infinities; with points, every corner component is finite and is the
   * least (min) or greatest (max) component among the points.
   */
  lemma ExtendAllFromEmpty(pts: seq<Coord>, a: Axis)
    ensures pts == [] ==> ExtendAll(EmptyBox, pts) == EmptyBox
    ensures pts != [] ==>
      exists i :: 0 <= i < |pts| && At(ExtendAll(EmptyBox, pts).max, a) == Fin(Comp(pts[i], a))
    ensures pts != [] ==>
      exists i :: 0 <= i < |pts| && At(ExtendAll(EmptyBox, pts).min, a) == Fin(Comp(pts[i], a))
    ensures forall i :: 0 <= i < |pts| ==>
      Le(At(ExtendAll(EmptyBox, pts).min, a), Fin(Comp(pts[i], a)))
      && Le(Fin(Comp(pts[i], a)), At(ExtendAll(EmptyBox, pts).max, a))
  {
    var r := ExtendAll(EmptyBox, pts);
    ExtendAllBounds(EmptyBox, pts);
    ExtendAllAttained(EmptyBox, pts, a);
    forall i | 0 <= i < |pts|
      ensures Le(At(r.min, a), Fin(Comp(pts[i], a))) && Le(Fin(Comp(pts[i], a)), At(r.max, a))
    {
      assert ContainsOn(r, pts[i], a);
    }
    if pts != [] {
      assert ContainsOn(r, pts[0], a);
    }
  }

  /** The accumulator object of the source: six `f64` fields grouped as two corners. */
  class AABB {
    var min: Point3
    var max: Point3

    function Value(): Box
      reads this
    {
      Box(min, max)
    }

    /** `AABB::default()`. */
    constructor ()
      ensures Value() == EmptyBox
    {
      min := Point3(PosInf, PosInf, PosInf);
      max := Point3(NegInf, NegInf, NegInf);
    }

    /** `extend(v)`: widens each of the six fields in place. */
    method Extend(v: Coord)
      modifies this
      ensures Value() == Extended(old(Value()), v)
    {
      min := min.(x := MinE(min.x, Fin(v.x)));
      min := min.(y := MinE(min.y, Fin(v.y)));
      min := min.(z := MinE(min.z, Fin(v.z)));

      max := max.(x := MaxE(max.x, Fin(v.x)));
      max := max.(y := MaxE(max.y, Fin(v.y)));
      max := max.(z := MaxE(max.z, Fin(v.z)));
    }
  }
}
