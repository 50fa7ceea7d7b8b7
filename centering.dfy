/** The auto-centering step: the midpoint of the axis-aligned bounding box of a
    bounded sample of the input's points, polylines in order and points in order. */
module Centering {
  import opened Geometry

  /** The count the sampling loop tests against. The count is incremented before
      the test `count > SampleCap`, so the sample holds SampleCap + 1 points. */
  const SampleCap: nat := 100000

  /** Every point of the input, polylines in order, then points in order. */
  function Flatten(pls: seq<Polyline>): seq<Point3>
  {
    if pls == [] then [] else Flatten(pls[..|pls| - 1]) + Points(pls[|pls| - 1])
  }

  /** The points the centre is computed from: the first SampleCap + 1 of the input,
      or all of them when there are fewer. */
  function Sample(pls: seq<Polyline>): seq<Point3>
  {
    var all := Flatten(pls);
    if |all| <= SampleCap then all else all[..SampleCap + 1]
  }

  function Min(a: real, b: real): real { if b < a then b else a }

  function Max(a: real, b: real): real { if b > a then b else a }

  /** An axis-aligned box, as the six running extremes of the sampling loop. */
  datatype Box = Box(lo: Point3, hi: Point3)

  /** One step of the sampling loop: the box grown to take in `p`. */
  function Widen(b: Box, p: Point3): Box
  {
    Box(Point3(Min(b.lo.x, p.x), Min(b.lo.y, p.y), Min(b.lo.z, p.z)),
        Point3(Max(b.hi.x, p.x), Max(b.hi.y, p.y), Max(b.hi.z, p.z)))
  }

  /** The box the loop holds after the points of `s`, folded left to right. */
  function BoundingBox(s: seq<Point3>): Box
    requires |s| > 0
  {
    if |s| == 1 then Box(s[0], s[0]) else Widen(BoundingBox(s[..|s| - 1]), s[|s| - 1])
  }

  /** The smallest coordinate on axis `a` among the points of `s`. */
  function AxisMin(s: seq<Point3>, a: Axis): real
    requires |s| > 0
  {
    Coord(BoundingBox(s).lo, a)
  }

  /** The largest coordinate on axis `a` among the points of `s`. */
  function AxisMax(s: seq<Point3>, a: Axis): real
    requires |s| > 0
  {
    Coord(BoundingBox(s).hi, a)
  }

  /** AxisMin and AxisMax are the extremes: they bound every point of `s` on
      that axis and are attained by some point of `s`. */
  lemma {:induction false} AxisExtremes(s: seq<Point3>, a: Axis)
    requires |s| > 0
    ensures forall i :: 0 <= i < |s| ==> AxisMin(s, a) <= Coord(s[i], a) <= AxisMax(s, a)
    ensures exists i :: 0 <= i < |s| && AxisMin(s, a) == Coord(s[i], a)
    ensures exists j :: 0 <= j < |s| && AxisMax(s, a) == Coord(s[j], a)
  {
    var init := s[..|s| - 1];
    assert |s| > 1 ==> AxisMin(s, a) == Min(AxisMin(init, a), Coord(s[|s| - 1], a)) by {
      if |s| > 1 { assert BoundingBox(s) == Widen(BoundingBox(init), s[|s| - 1]); }
    }
    assert |s| > 1 ==> AxisMax(s, a) == Max(AxisMax(init, a), Coord(s[|s| - 1], a)) by {
      if |s| > 1 { assert BoundingBox(s) == Widen(BoundingBox(init), s[|s| - 1]); }
    }
    if |s| == 1 {
      assert AxisMin(s, a) == Coord(s[0], a) == AxisMax(s, a);
    } else {
      AxisExtremes(init, a);
      assert forall i :: 0 <= i < |init| ==> init[i] == s[i];
      var i :| 0 <= i < |init| && AxisMin(init, a) == Coord(init[i], a);
      var j :| 0 <= j < |init| && AxisMax(init, a) == Coord(init[j], a);
      if Coord(s[|s| - 1], a) < AxisMin(init, a) {
        assert AxisMin(s, a) == Coord(s[|s| - 1], a);
      } else {
        assert AxisMin(s, a) == Coord(s[i], a);
      }
      if Coord(s[|s| - 1], a) > AxisMax(init, a) {
        assert AxisMax(s, a) == Coord(s[|s| - 1], a);
      } else {
        assert AxisMax(s, a) == Coord(s[j], a);
      }
    }
  }

  /** `(lo + hi) / 2`: equally far from both ends, and between them when lo <= hi. */
  function Midpoint(lo: real, hi: real): (m: real)
    ensures m - lo == hi - m
    ensures lo <= hi ==> lo <= m <= hi
  {
    (lo + hi) / 2.0
  }

  function BoxCenter(s: seq<Point3>): Point3
    requires |s| > 0
  {
    Point3(Midpoint(AxisMin(s, X), AxisMax(s, X)),
           Midpoint(AxisMin(s, Y), AxisMax(s, Y)),
           Midpoint(AxisMin(s, Z), AxisMax(s, Z)))
  }

  /** The centre of the bounding box of `s`; `None` for an empty sample, where the
      source's infinite sentinels would produce a not-a-number centre. */
  function CenterOf(s: seq<Point3>): Option<Point3>
  {
    if |s| == 0 then None else Some(BoxCenter(s))
  }

  lemma BoxCenterCoord(s: seq<Point3>, a: Axis)
    requires |s| > 0
    ensures Coord(BoxCenter(s), a) == Midpoint(AxisMin(s, a), AxisMax(s, a))
  {
  }

  /** Appending a polyline appends its points. */
  lemma FlattenSnoc(pls: seq<Polyline>, pl: Polyline)
    ensures Flatten(pls + [pl]) == Flatten(pls) + Points(pl)
  {
    assert (pls + [pl])[..|pls|] == pls;
  }

  /** Flattening distributes over concatenation of polyline lists. */
  lemma {:induction false} FlattenAppend(a: seq<Polyline>, b: seq<Polyline>)
    ensures Flatten(a + b) == Flatten(a) + Flatten(b)
    decreases |b|
  {
    if b == [] {
      assert a + b == a;
    } else {
      var init, last := b[..|b| - 1], b[|b| - 1];
      calc {
        Flatten(a + b);
        { assert a + b == (a + init) + [last]; }
        Flatten((a + init) + [last]);
        { FlattenSnoc(a + init, last); }
        Flatten(a + init) + Points(last);
        { FlattenAppend(a, init); }
        Flatten(a) + Flatten(init) + Points(last);
        { FlattenSnoc(init, last); assert b == init + [last]; }
        Flatten(a) + Flatten(b);
      }
    }
  }

  /** Point j of polyline k is visited right after the points of the
      polylines before it and the first j points of its own. */
  lemma FlattenAt(pls: seq<Polyline>, k: nat, j: nat)
    requires k < |pls| && j < |Points(pls[k])|
    ensures |Flatten(pls[..k])| + j < |Flatten(pls)|
    ensures Flatten(pls)[|Flatten(pls[..k])| + j] == Points(pls[k])[j]
  {
    var head, tail := pls[..k + 1], pls[k + 1..];
    calc {
      Flatten(pls);
      { assert pls == head + tail; }
      Flatten(head + tail);
      { FlattenAppend(head, tail); }
      Flatten(head) + Flatten(tail);
      { assert head == pls[..k] + [pls[k]]; FlattenSnoc(pls[..k], pls[k]); }
      Flatten(pls[..k]) + Points(pls[k]) + Flatten(tail);
    }
  }

  /** The polylines before k + 1 hold those before k and then polyline k. */
  lemma FlattenStep(pls: seq<Polyline>, k: nat)
    requires k < |pls|
    ensures |Flatten(pls[..k + 1])| == |Flatten(pls[..k])| + |Points(pls[k])|
  {
    assert pls[..k + 1][..k] == pls[..k];
  }

  /** Taking in one more point of `s` widens the box as the running `min` and
      `max` calls do. */
  lemma BoxStep(s: seq<Point3>, k: nat)
    requires 0 < k < |s|
    ensures BoundingBox(s[..k + 1]) == Widen(BoundingBox(s[..k]), s[k])
  {
    assert s[..k + 1][..k] == s[..k];
  }

  /** The sample is the leading part of the traversal, and holds exactly
      min(total, SampleCap + 1) points. */
  lemma SampleIsLeadingPoints(pls: seq<Polyline>)
    ensures Sample(pls) <= Flatten(pls)
    ensures |Sample(pls)| == if |Flatten(pls)| <= SampleCap then |Flatten(pls)| else SampleCap + 1
  {
  }

  /** Once the input holds more than SampleCap points, whatever follows never
      affects the sample, so neither can it affect the centre. */
  lemma {:induction false} LaterPolylinesIgnored(pls: seq<Polyline>, more: seq<Polyline>)
    requires |Flatten(pls)| > SampleCap
    ensures Sample(pls + more) == Sample(pls)
    ensures CenterOf(Sample(pls + more)) == CenterOf(Sample(pls))
  {
    FlattenAppend(pls, more);
    assert Flatten(pls + more)[..SampleCap + 1] == Flatten(pls)[..SampleCap + 1];
  }

  /** On every axis the centre lies between the least and the greatest sampled
      coordinate, and so within the bounding box of every sampled point. */
  lemma CenterWithinSampleBox(pls: seq<Polyline>, a: Axis)
    requires CenterOf(Sample(pls)).Some?
    ensures var s, c := Sample(pls), CenterOf(Sample(pls)).value;
      AxisMin(s, a) <= Coord(c, a) <= AxisMax(s, a)
  {
    var s := Sample(pls);
    BoxCenterCoord(s, a);
    AxisExtremes(s, a);
    assert AxisMin(s, a) <= Coord(s[0], a) <= AxisMax(s, a);
  }

  /** The centre is absent exactly when the input has no points at all. */
  lemma NoCenterIffNoPoints(pls: seq<Polyline>)
    ensures CenterOf(Sample(pls)).None? <==> Flatten(pls) == []
  {
  }

  /** When every sampled point is the same point, the centre is that point. */
  lemma CoincidentSampleCenter(s: seq<Point3>, p: Point3)
    requires |s| > 0
    requires forall i :: 0 <= i < |s| ==> s[i] == p
    ensures CenterOf(s) == Some(p)
  {
    forall a: Axis ensures AxisMin(s, a) == Coord(p, a) == AxisMax(s, a) {
      AxisExtremes(s, a);
    }
    assert AxisMin(s, X) == p.x && AxisMax(s, X) == p.x;
    assert AxisMin(s, Y) == p.y && AxisMax(s, Y) == p.y;
    assert AxisMin(s, Z) == p.z && AxisMax(s, Z) == p.z;
  }

  /** One step of the inner sampling loop: point j of polyline i is the next
      point of the traversal, and taking it in widens the running box. */
  lemma SampleStep(pls: seq<Polyline>, i: nat, j: nat, count: nat, box: Box)
    requires i < |pls| && j < |Points(pls[i])|
    requires count == |Flatten(pls[..i])| + j <= |Flatten(pls)|
    requires count > 0 ==> box == BoundingBox(Flatten(pls)[..count])
    ensures count < |Flatten(pls)|
    ensures var p := Points(pls[i])[j];
      BoundingBox(Flatten(pls)[..count + 1]) == if count == 0 then Box(p, p) else Widen(box, p)
  {
    var all := Flatten(pls);
    var p := Points(pls[i])[j];
    assert count < |all| && all[count] == p by {
      FlattenAt(pls, i, j);
    }
    if count == 0 {
      assert all[..count + 1] == [p];
    } else {
      calc {
        BoundingBox(all[..count + 1]);
        { BoxStep(all, count); }
        Widen(BoundingBox(all[..count]), all[count]);
        Widen(box, p);
      }
    }
  }

  /** The sampled points after the loops: the whole traversal when the cap was
      not passed, and its first SampleCap + 1 points otherwise. */
  lemma SampleAtExit(pls: seq<Polyline>, i: nat, count: nat)
    requires i <= |pls| && count <= |Flatten(pls)|
    requires count <= SampleCap ==> i == |pls| && count == |Flatten(pls[..i])|
    requires count > SampleCap ==> count == SampleCap + 1
    ensures Flatten(pls)[..count] == Sample(pls)
  {
    if count <= SampleCap {
      assert pls[..i] == pls;
    }
  }

  /** The centre of a sample is the per-axis midpoint of its box's corners. */
  lemma CenterOfBox(s: seq<Point3>, box: Box)
    requires |s| > 0 && box == BoundingBox(s)
    ensures BoxCenter(s) == Point3((box.lo.x + box.hi.x) / 2.0, (box.lo.y + box.hi.y) / 2.0, (box.lo.z + box.hi.z) / 2.0)
  {
  }

  /** The inner loop of `calculate_center` over the points of polyline i: each
      point widens the running box (the corners `lo` and `hi` hold the six
      running extremes), and the loop stops once the count exceeds SampleCap. */
  method SamplePolyline(ghost pls: seq<Polyline>, ghost i: nat, points: seq<Point3>, count0: nat, lo0: Point3, hi0: Point3)
    returns (count: nat, lo: Point3, hi: Point3)
    requires i < |pls| && points == Points(pls[i])
    requires count0 == |Flatten(pls[..i])| <= SampleCap && count0 <= |Flatten(pls)|
    requires count0 > 0 ==> Box(lo0, hi0) == BoundingBox(Flatten(pls)[..count0])
    ensures count <= |Flatten(pls)|
    ensures count <= SampleCap ==> count == |Flatten(pls[..i + 1])|
    ensures count > SampleCap ==> count == SampleCap + 1
    ensures count > 0 ==> Box(lo, hi) == BoundingBox(Flatten(pls)[..count])
  {
    count, lo, hi := count0, lo0, hi0;
    var j := 0;
    while j < |points|
      invariant 0 <= j <= |points|
      invariant count == count0 + j <= SampleCap
      invariant count <= |Flatten(pls)|
      invariant count > 0 ==> Box(lo, hi) == BoundingBox(Flatten(pls)[..count])
    {
      var p := points[j];
      SampleStep(pls, i, j, count, Box(lo, hi));
      if count == 0 {
        lo, hi := p, p;
      } else {
        lo := Point3(Min(lo.x, p.x), Min(lo.y, p.y), Min(lo.z, p.z));
        hi := Point3(Max(hi.x, p.x), Max(hi.y, p.y), Max(hi.z, p.z));
      }
      count := count + 1;
      j := j + 1;
      if count > SampleCap {
        return;
      }
    }
    FlattenStep(pls, i);
  }

  /** `calculate_center`: running per-axis minima and maxima over the points,
      polylines in order then points in order, breaking out of both loops once
      the count exceeds SampleCap. */
  method CalculateCenter(polylines: seq<Polyline>) returns (center: Option<Point3>)
    ensures center == CenterOf(Sample(polylines))
  {
    ghost var all := Flatten(polylines);
    var lo, hi := Point3(0.0, 0.0, 0.0), Point3(0.0, 0.0, 0.0);
    var count := 0;
    var i := 0;
    while i < |polylines|
      invariant 0 <= i <= |polylines|
      invariant count == |Flatten(polylines[..i])| <= SampleCap
      invariant count <= |all|
      invariant count > 0 ==> Box(lo, hi) == BoundingBox(all[..count])
    {
      count, lo, hi := SamplePolyline(polylines, i, Points(polylines[i]), count, lo, hi);
      if count > SampleCap {
        break;
      }
      i := i + 1;
    }
    SampleAtExit(polylines, i, count);
    if count == 0 {
      center := None;
    } else {
      center := Some(Point3((lo.x + hi.x) / 2.0, (lo.y + hi.y) / 2.0, (lo.z + hi.z) / 2.0));
      CenterOfBox(all[..count], Box(lo, hi));
    }
  }
}
