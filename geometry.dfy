/** Positions and axis-aligned bounding boxes, with the merge rule the
    voxelizer uses to grow a box over points and over other boxes. */
module Geometry {

  /** A position. Coordinates are exact reals: the box only ever takes a
      minimum or a maximum of them, which needs no rounding. */
  datatype Vec3 = Vec3(x: real, y: real, z: real)

  function Min(a: real, b: real): real { if a <= b then a else b }
  function Max(a: real, b: real): real { if a <= b then b else a }

  /** Per-axis minimum and maximum of two vectors. */
  function Floor(a: Vec3, b: Vec3): Vec3 { Vec3(Min(a.x, b.x), Min(a.y, b.y), Min(a.z, b.z)) }
  function Ceil(a: Vec3, b: Vec3): Vec3 { Vec3(Max(a.x, b.x), Max(a.y, b.y), Max(a.z, b.z)) }

  /** A box that has merged nothing is `Null`; otherwise it has a lower and an upper corner. */
  datatype Box = Null | Finite(lo: Vec3, hi: Vec3)

  predicate Below(a: Vec3, b: Vec3) { a.x <= b.x && a.y <= b.y && a.z <= b.z }

  predicate Contains(b: Box, p: Vec3) { b.Finite? && Below(b.lo, p) && Below(p, b.hi) }

  /** The box grown to take in one more point (`merge(Vector3)`). */
  function MergePoint(b: Box, p: Vec3): (r: Box)
    ensures Contains(r, p)
    ensures forall q :: Contains(b, q) ==> Contains(r, q)
  {
    match b
    case Null => Finite(p, p)
    case Finite(lo, hi) => Finite(Floor(lo, p), Ceil(hi, p))
  }

  /** The smallest box holding two boxes (`merge(AABB)`); a null box adds nothing. */
  function MergeBox(a: Box, b: Box): (r: Box)
    ensures r.Null? <==> a.Null? && b.Null?
    ensures forall q :: Contains(a, q) || Contains(b, q) ==> Contains(r, q)
  {
    match b
    case Null => a
    case Finite(lo, hi) =>
      match a
      case Null => b
      case Finite(alo, ahi) => Finite(Floor(alo, lo), Ceil(ahi, hi))
  }

  /** The box a running merge over `ps`, in order, starting from a null box, ends with. */
  function BoxOf(ps: seq<Vec3>): Box
  {
    if ps == [] then Null else MergePoint(BoxOf(ps[..|ps| - 1]), ps[|ps| - 1])
  }

  /** Every point of `ps` lies in the finite box `b`. */
  ghost predicate Holds(b: Box, ps: seq<Vec3>)
  {
    b.Finite? && forall i :: 0 <= i < |ps| ==> Below(b.lo, ps[i]) && Below(ps[i], b.hi)
  }

  /** Each of the six faces of the finite box `b` is touched by a point of `ps`. */
  ghost predicate Touches(b: Box, ps: seq<Vec3>)
  {
    && b.Finite?
    && (exists i :: 0 <= i < |ps| && ps[i].x == b.lo.x)
    && (exists i :: 0 <= i < |ps| && ps[i].y == b.lo.y)
    && (exists i :: 0 <= i < |ps| && ps[i].z == b.lo.z)
    && (exists i :: 0 <= i < |ps| && ps[i].x == b.hi.x)
    && (exists i :: 0 <= i < |ps| && ps[i].y == b.hi.y)
    && (exists i :: 0 <= i < |ps| && ps[i].z == b.hi.z)
  }

  /** `b` is exactly the per-axis minimum and maximum of `ps`: null for no points,
      otherwise holding every point, with each of its six faces touched by one. */
  ghost predicate Tight(b: Box, ps: seq<Vec3>)
  {
    if ps == [] then b.Null? else Holds(b, ps) && Touches(b, ps)
  }

  /** The running merge computes the exact per-axis min/max of the points. */
  lemma BoxOfTight(ps: seq<Vec3>)
    ensures Tight(BoxOf(ps), ps)
  {
    if ps != [] {
      BoxOfHolds(ps);
      BoxOfTouches(ps);
    }
  }

  /** The running merge over some points holds all of them. */
  lemma {:induction false} BoxOfHolds(ps: seq<Vec3>)
    requires ps != []
    ensures Holds(BoxOf(ps), ps)
  {
    var n := |ps| - 1;
    var init := ps[..n];
    assert forall i :: 0 <= i < n ==> ps[i] == init[i];
    if init != [] {
      BoxOfHolds(init);
    }
  }

  /** Each face of the running merge over some points is touched by one of them:
      by the last point when merging it moved that face, otherwise by the point
      that touched it before. */
  lemma {:induction false} BoxOfTouches(ps: seq<Vec3>)
    requires ps != []
    ensures Touches(BoxOf(ps), ps)
  {
    var n := |ps| - 1;
    var init := ps[..n];
    var p := ps[n];
    var b := BoxOf(ps);
    if init == [] {
      assert BoxOf(init) == Null;
      assert b == MergePoint(BoxOf(init), p) == Finite(p, p);
      assert ps[0].x == b.lo.x && ps[0].y == b.lo.y && ps[0].z == b.lo.z;
      assert ps[0].x == b.hi.x && ps[0].y == b.hi.y && ps[0].z == b.hi.z;
    } else {
      BoxOfTouches(init);
      var pb := BoxOf(init);
      var ix :| 0 <= ix < n && init[ix].x == pb.lo.x;
      var iy :| 0 <= iy < n && init[iy].y == pb.lo.y;
      var iz :| 0 <= iz < n && init[iz].z == pb.lo.z;
      var jx :| 0 <= jx < n && init[jx].x == pb.hi.x;
      var jy :| 0 <= jy < n && init[jy].y == pb.hi.y;
      var jz :| 0 <= jz < n && init[jz].z == pb.hi.z;
      assert ps[if b.lo.x == p.x then n else ix].x == b.lo.x;
      assert ps[if b.lo.y == p.y then n else iy].y == b.lo.y;
      assert ps[if b.lo.z == p.z then n else iz].z == b.lo.z;
      assert ps[if b.hi.x == p.x then n else jx].x == b.hi.x;
      assert ps[if b.hi.y == p.y then n else jy].y == b.hi.y;
      assert ps[if b.hi.z == p.z then n else jz].z == b.hi.z;
    }
  }

  /** At most one box is tight for a set of points, so `Tight` pins the box down. */
  lemma TightUnique(b1: Box, b2: Box, ps: seq<Vec3>)
    requires Tight(b1, ps) && Tight(b2, ps)
    ensures b1 == b2
  {
    if ps != [] {
      TightLowUnique(b1, b2, ps);
      TightHighUnique(b1, b2, ps);
    }
  }

  /** Two tight boxes of the same points share their lower corner: each face
      of one is touched by a point the other lies below. */
  lemma TightLowUnique(b1: Box, b2: Box, ps: seq<Vec3>)
    requires Tight(b1, ps) && Tight(b2, ps) && ps != []
    ensures b1.lo == b2.lo
  {
    var ix :| 0 <= ix < |ps| && ps[ix].x == b1.lo.x;
    var iy :| 0 <= iy < |ps| && ps[iy].y == b1.lo.y;
    var iz :| 0 <= iz < |ps| && ps[iz].z == b1.lo.z;
    var kx :| 0 <= kx < |ps| && ps[kx].x == b2.lo.x;
    var ky :| 0 <= ky < |ps| && ps[ky].y == b2.lo.y;
    var kz :| 0 <= kz < |ps| && ps[kz].z == b2.lo.z;
    assert Below(b1.lo, ps[kx]) && Below(b1.lo, ps[ky]) && Below(b1.lo, ps[kz]);
    assert Below(b2.lo, ps[ix]) && Below(b2.lo, ps[iy]) && Below(b2.lo, ps[iz]);
  }

  /** Two tight boxes of the same points share their upper corner. */
  lemma TightHighUnique(b1: Box, b2: Box, ps: seq<Vec3>)
    requires Tight(b1, ps) && Tight(b2, ps) && ps != []
    ensures b1.hi == b2.hi
  {
    var jx :| 0 <= jx < |ps| && ps[jx].x == b1.hi.x;
    var jy :| 0 <= jy < |ps| && ps[jy].y == b1.hi.y;
    var jz :| 0 <= jz < |ps| && ps[jz].z == b1.hi.z;
    var lx :| 0 <= lx < |ps| && ps[lx].x == b2.hi.x;
    var ly :| 0 <= ly < |ps| && ps[ly].y == b2.hi.y;
    var lz :| 0 <= lz < |ps| && ps[lz].z == b2.hi.z;
    assert Below(ps[lx], b1.hi) && Below(ps[ly], b1.hi) && Below(ps[lz], b1.hi);
    assert Below(ps[jx], b2.hi) && Below(ps[jy], b2.hi) && Below(ps[jz], b2.hi);
  }

  lemma MergeBoxCommutes(a: Box, b: Box)
    ensures MergeBox(a, b) == MergeBox(b, a)
  {
  }

  lemma MergeBoxAssociates(a: Box, b: Box, c: Box)
    ensures MergeBox(MergeBox(a, b), c) == MergeBox(a, MergeBox(b, c))
  {
  }

  /** Merging a box point by point and merging whole boxes agree: the box of
      two point sequences is the merge of their boxes. */
  lemma {:induction false} BoxOfAppend(a: seq<Vec3>, b: seq<Vec3>)
    ensures BoxOf(a + b) == MergeBox(BoxOf(a), BoxOf(b))
  {
    if b == [] {
      assert a + b == a;
    } else {
      var n := |b| - 1;
      assert (a + b)[..|a + b| - 1] == a + b[..n];
      BoxOfAppend(a, b[..n]);
      MergeBoxAssociates(BoxOf(a), BoxOf(b[..n]), Finite(b[n], b[n]));
    }
  }

  /** The union of a sequence of boxes, merged left to right from a null box. */
  function UnionAll(bs: seq<Box>): Box
  {
    if bs == [] then Null else MergeBox(UnionAll(bs[..|bs| - 1]), bs[|bs| - 1])
  }

  /** The union of the first i + 1 boxes merges box i into the union of the first i. */
  lemma UnionAllSnoc(bs: seq<Box>, i: nat)
    requires i < |bs|
    ensures UnionAll(bs[..i + 1]) == MergeBox(UnionAll(bs[..i]), bs[i])
  {
    assert bs[..i + 1][..i] == bs[..i];
  }

  /** Any one box can be merged last. */
  lemma {:induction false} UnionAllRemove(bs: seq<Box>, k: nat)
    requires k < |bs|
    ensures UnionAll(bs) == MergeBox(UnionAll(bs[..k] + bs[k + 1..]), bs[k])
  {
    var n := |bs| - 1;
    if k == n {
      assert bs[..k] + bs[k + 1..] == bs[..n];
    } else {
      var init := bs[..n];
      UnionAllRemove(init, k);
      var rest := init[..k] + init[k + 1..];
      assert (bs[..k] + bs[k + 1..])[..n - 1] == rest;
      assert (bs[..k] + bs[k + 1..])[n - 1] == bs[n];
      calc {
        UnionAll(bs);
        MergeBox(MergeBox(UnionAll(rest), bs[k]), bs[n]);
        { MergeBoxAssociates(UnionAll(rest), bs[k], bs[n]);
          MergeBoxCommutes(bs[k], bs[n]);
          MergeBoxAssociates(UnionAll(rest), bs[n], bs[k]); }
        MergeBox(MergeBox(UnionAll(rest), bs[n]), bs[k]);
      }
    }
  }

  /** The union does not depend on the order of the boxes. */
  lemma {:induction false} UnionAllPermutation(a: seq<Box>, b: seq<Box>)
    requires multiset(a) == multiset(b)
    ensures UnionAll(a) == UnionAll(b)
  {
    if a == [] {
      assert |b| == |multiset(b)| == 0;
    } else {
      var n := |a| - 1;
      var x := a[n];
      assert a == a[..n] + [x];
      assert x in multiset(b);
      var k :| 0 <= k < |b| && b[k] == x;
      assert b == b[..k] + [x] + b[k + 1..];
      var rest := b[..k] + b[k + 1..];
      calc {
        multiset(b);
        multiset(b[..k] + [x] + b[k + 1..]);
        multiset(b[..k]) + multiset{x} + multiset(b[k + 1..]);
        multiset(rest) + multiset{x};
      }
      assert multiset(a) == multiset(a[..n]) + multiset{x};
      assert multiset(a[..n]) == multiset(a) - multiset{x};
      assert multiset(rest) == multiset(b) - multiset{x};
      UnionAllPermutation(a[..n], rest);
      UnionAllRemove(b, k);
    }
  }

  /** A finite box whose lower corner is below its upper corner. */
  predicate Ordered(b: Box) { b.Finite? ==> Below(b.lo, b.hi) }

  /** The extent of a box along each axis (`getSize`); a null box has none. */
  function Size(b: Box): Vec3
  {
    match b
    case Null => Vec3(0.0, 0.0, 0.0)
    case Finite(lo, hi) => Vec3(hi.x - lo.x, hi.y - lo.y, hi.z - lo.z)
  }

  /** A box merged from points is ordered, so its size is never negative. */
  lemma {:induction false} BoxOfOrdered(ps: seq<Vec3>)
    ensures Ordered(BoxOf(ps))
    ensures Size(BoxOf(ps)).x >= 0.0 && Size(BoxOf(ps)).y >= 0.0 && Size(BoxOf(ps)).z >= 0.0
  {
    if ps != [] {
      BoxOfOrdered(ps[..|ps| - 1]);
    }
  }

  /** The union of ordered boxes is ordered. */
  lemma {:induction false} UnionAllOrdered(bs: seq<Box>)
    requires forall i :: 0 <= i < |bs| ==> Ordered(bs[i])
    ensures Ordered(UnionAll(bs))
    ensures Size(UnionAll(bs)).x >= 0.0 && Size(UnionAll(bs)).y >= 0.0 && Size(UnionAll(bs)).z >= 0.0
  {
    if bs != [] {
      UnionAllOrdered(bs[..|bs| - 1]);
    }
  }
}
