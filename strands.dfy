/** The data part of building one layer's merged curve: one POLY spline (a
    strand) per polyline with at least two points, its control points centred
    on the frozen centre and scaled, its cyclic flag taken from `closed`. */
module Strands {
  import opened Geometry

  /** A spline control point `co`: homogeneous coordinates with weight `w`. */
  datatype Point4 = Point4(x: real, y: real, z: real, w: real)

  /** One spline of the merged curve. */
  datatype Strand = Strand(points: seq<Point4>, cyclic: bool)

  /** The centring comprehension: each point less the centre, per axis. */
  function Centered(points: seq<Point3>, center: Point3): (r: seq<Point3>)
    ensures |r| == |points|
    ensures forall i :: 0 <= i < |r| ==>
      Point3(r[i].x + center.x, r[i].y + center.y, r[i].z + center.z) == points[i]
  {
    seq(|points|, i requires 0 <= i < |points| =>
      Point3(points[i].x - center.x, points[i].y - center.y, points[i].z - center.z))
  }

  /** The control point written for a centred point: scaled, with weight 1. */
  function Scaled(p: Point3, scale: real): Point4
  {
    Point4(p.x * scale, p.y * scale, p.z * scale, 1.0)
  }

  /** Where an input point ends up: `((p - center) * scale, w = 1)`. This is the
      per-point specification of the two steps the curve builder takes in turn,
      `Centered` over the list and then `Scaled` per slot in `FillSpline`. */
  function Place(p: Point3, center: Point3, scale: real): Point4
  {
    Scaled(Point3(p.x - center.x, p.y - center.y, p.z - center.z), scale)
  }

  /** The inverse of Place for a non-zero scale. */
  function Unplace(q: Point4, center: Point3, scale: real): Point3
    requires scale != 0.0
  {
    Point3(q.x / scale + center.x, q.y / scale + center.y, q.z / scale + center.z)
  }

  /** The strand built from one polyline. */
  function StrandOf(pl: Polyline, center: Point3, scale: real): Strand
  {
    var pts := Points(pl);
    Strand(seq(|pts|, i requires 0 <= i < |pts| => Place(pts[i], center, scale)), IsClosed(pl))
  }

  /** The polylines that yield a strand: those with at least two points, in order. */
  function Renderable(group: seq<Polyline>): seq<Polyline>
  {
    if group == [] then []
    else
      var last := group[|group| - 1];
      Renderable(group[..|group| - 1]) + (if |Points(last)| >= 2 then [last] else [])
  }

  /** The strands of a layer's merged curve, in input order. */
  function StrandsOf(group: seq<Polyline>, center: Point3, scale: real): seq<Strand>
  {
    if group == [] then []
    else
      var last := group[|group| - 1];
      StrandsOf(group[..|group| - 1], center, scale)
        + (if |Points(last)| >= 2 then [StrandOf(last, center, scale)] else [])
  }

  /** The spline fill loop: `spline.points` is sized to the polyline and control
      point i is set from centred point i. */
  method FillSpline(centered: seq<Point3>, scale: real) returns (co: array<Point4>)
    ensures fresh(co)
    ensures co.Length == |centered|
    ensures forall i :: 0 <= i < co.Length ==> co[i] == Scaled(centered[i], scale)
  {
    co := new Point4[|centered|];
    var i := 0;
    while i < |centered|
      invariant 0 <= i <= |centered|
      invariant forall k :: 0 <= k < i ==> co[k] == Scaled(centered[k], scale)
    {
      co[i] := Scaled(centered[i], scale);
      i := i + 1;
    }
  }

  /** `create_merged_curve_from_polylines` without the host's curve object: skip
      polylines with fewer than two points, emit one strand for each other
      polyline and count the strands emitted. */
  method CreateMergedCurve(group: seq<Polyline>, center: Point3, scale: real)
    returns (strands: seq<Strand>, splineCount: nat)
    ensures strands == StrandsOf(group, center, scale)
    ensures splineCount == |Renderable(group)|
  {
    strands, splineCount := [], 0;
    var i := 0;
    while i < |group|
      invariant 0 <= i <= |group|
      invariant strands == StrandsOf(group[..i], center, scale)
      invariant splineCount == |Renderable(group[..i])|
    {
      var pl := group[i];
      var points := Points(pl);
      assert group[..i + 1][..i] == group[..i];
      if |points| < 2 {
        i := i + 1;
        continue;
      }
      var centered := Centered(points, center);
      var co := FillSpline(centered, scale);
      var strand := Strand(co[..], IsClosed(pl));
      assert strand == StrandOf(pl, center, scale);
      strands := strands + [strand];
      splineCount := splineCount + 1;
      i := i + 1;
    }
    assert group[..i] == group;
  }

  /** The k-th strand comes from the k-th polyline with at least two points. */
  lemma {:induction false} StrandsFollowRenderable(group: seq<Polyline>, center: Point3, scale: real)
    ensures |StrandsOf(group, center, scale)| == |Renderable(group)|
    ensures forall k :: 0 <= k < |Renderable(group)| ==>
      StrandsOf(group, center, scale)[k] == StrandOf(Renderable(group)[k], center, scale)
  {
    if group != [] {
      StrandsFollowRenderable(group[..|group| - 1], center, scale);
    }
  }

  /** Exactly the polylines with fewer than two points are dropped. */
  lemma {:induction false} RenderableMembers(group: seq<Polyline>)
    ensures forall pl :: pl in Renderable(group) <==> pl in group && |Points(pl)| >= 2
  {
    if group != [] {
      var init := group[..|group| - 1];
      RenderableMembers(init);
      assert group == init + [group[|group| - 1]];
    }
  }

  /** A group whose polylines all have fewer than two points yields no strand. */
  lemma {:induction false} NothingRenderable(group: seq<Polyline>)
    requires forall pl :: pl in group ==> |Points(pl)| < 2
    ensures Renderable(group) == []
  {
    if group != [] {
      var init := group[..|group| - 1];
      assert forall pl :: pl in init ==> pl in group;
      NothingRenderable(init);
      assert group[|group| - 1] in group;
    }
  }

  /** The positions of the polylines with fewer than two points. */
  ghost function ShortIndices(group: seq<Polyline>): set<int>
  {
    set i | 0 <= i < |group| && |Points(group[i])| < 2
  }

  /** The short positions of a group are those of all but its last polyline,
      plus the last position when that polyline is short. */
  lemma ShortIndicesSnoc(group: seq<Polyline>)
    requires group != []
    ensures var n := |group| - 1;
      && n !in ShortIndices(group[..n])
      && ShortIndices(group) == ShortIndices(group[..n]) + if |Points(group[n])| < 2 then {n} else {}
  {
    var n := |group| - 1;
    assert forall i :: 0 <= i < n ==> group[..n][i] == group[i];
  }

  /** The strand count is the input length less the polylines with under two points. */
  lemma {:induction false} RenderableCount(group: seq<Polyline>)
    ensures |Renderable(group)| == |group| - |ShortIndices(group)|
  {
    if group != [] {
      var n := |group| - 1;
      var init := group[..n];
      RenderableCount(init);
      ShortIndicesSnoc(group);
      if |Points(group[n])| < 2 {
        assert |ShortIndices(group)| == |ShortIndices(init)| + 1;
      }
    }
  }

  /** Renderable keeps each polyline with the multiplicity it has in the input
      when it has at least two points, and drops it otherwise. */
  lemma {:induction false} RenderableMultiplicity(group: seq<Polyline>, pl: Polyline)
    ensures multiset(Renderable(group))[pl] == if |Points(pl)| >= 2 then multiset(group)[pl] else 0
  {
    if group != [] {
      var init := group[..|group| - 1];
      RenderableMultiplicity(init, pl);
      assert group == init + [group[|group| - 1]];
    }
  }

  /** Reordering the input does not change how many strands it yields. */
  lemma RenderablePermutation(a: seq<Polyline>, b: seq<Polyline>)
    requires multiset(a) == multiset(b)
    ensures |Renderable(a)| == |Renderable(b)|
  {
    forall pl ensures multiset(Renderable(a))[pl] == multiset(Renderable(b))[pl] {
      RenderableMultiplicity(a, pl);
      RenderableMultiplicity(b, pl);
    }
    assert multiset(Renderable(a)) == multiset(Renderable(b));
    assert |multiset(Renderable(a))| == |Renderable(a)|;
  }

  /** Dropping short polylines commutes with concatenation. */
  lemma {:induction false} RenderableAppend(a: seq<Polyline>, b: seq<Polyline>)
    ensures Renderable(a + b) == Renderable(a) + Renderable(b)
    decreases |b|
  {
    if b == [] {
      assert a + b == a;
    } else {
      var b' := b[..|b| - 1];
      RenderableAppend(a, b');
      assert (a + b)[..|a + b| - 1] == a + b';
      assert (a + b)[|a + b| - 1] == b[|b| - 1];
    }
  }

  /** A strand has the points of its polyline in the same order, and for a
      non-zero scale each source point is recovered from its control point;
      every control point has weight 1 and the strand is cyclic exactly when
      the polyline is closed (a missing flag reads as open). */
  lemma StrandRecoversPolyline(pl: Polyline, center: Point3, scale: real)
    ensures var st := StrandOf(pl, center, scale);
      && |st.points| == |Points(pl)|
      && (forall i :: 0 <= i < |st.points| ==> st.points[i].w == 1.0)
      && (scale != 0.0 ==> forall i :: 0 <= i < |st.points| ==>
            Unplace(st.points[i], center, scale) == Points(pl)[i])
      && (st.cyclic <==> pl.closed == Some(true))
  {
    var st := StrandOf(pl, center, scale);
    if scale != 0.0 {
      forall i | 0 <= i < |st.points|
        ensures Unplace(st.points[i], center, scale) == Points(pl)[i]
      {
        var p := Points(pl)[i];
        assert (p.x - center.x) * scale / scale == p.x - center.x;
        assert (p.y - center.y) * scale / scale == p.y - center.y;
        assert (p.z - center.z) * scale / scale == p.z - center.z;
      }
    }
  }

  /** Moving a polyline and the centre by the same offset leaves the strand
      unchanged: only positions relative to the centre reach the curve. */
  lemma TranslationInvariant(pl: Polyline, d: Point3, center: Point3, scale: real)
    ensures var moved := Polyline(
              Some(seq(|Points(pl)|, i requires 0 <= i < |Points(pl)| =>
                Point3(Points(pl)[i].x + d.x, Points(pl)[i].y + d.y, Points(pl)[i].z + d.z))),
              pl.closed, pl.layer);
      StrandOf(moved, Point3(center.x + d.x, center.y + d.y, center.z + d.z), scale)
        == StrandOf(pl, center, scale)
  {
  }
}
