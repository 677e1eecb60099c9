/** Section geometry: a section is a parallelogram spanned by `xAxis` and
    `yAxis` at `origin`, in index or millimetre coordinates. Points and line
    segments are real triples; floating-point rounding is not modelled. */
module Sections {
  import opened Wrappers
  import opened Vectors

  datatype Section = Section(origin: Vec3, xAxis: Vec3, yAxis: Vec3)

  /** A line segment from `start` to `end`. */
  datatype Line3 = Line3(start: Vec3, end: Vec3)

  /** The point at parameter `t` of a segment: `start` at 0, `end` at 1. */
  function At(line: Line3, t: real): Vec3
  {
    Add(Scale(t, Sub(line.end, line.start)), line.start)
  }

  /** `translateSection`: a parallel translation by `delta`. */
  function TranslateSection(section: Section, delta: Vec3): (r: Section)
    ensures r.xAxis == section.xAxis && r.yAxis == section.yAxis
    ensures Sub(r.origin, section.origin) == delta
  {
    Section(Add(section.origin, delta), section.xAxis, section.yAxis)
  }

  /** `sectionEquals`: componentwise equality of the three vectors. */
  function SectionEquals(a: Section, b: Section): (r: bool)
    ensures r <==> a == b
  {
    a.origin == b.origin && a.xAxis == b.xAxis && a.yAxis == b.yAxis
  }

  /** `normalVector` without the final normalisation; `NormalScaleInvariant`
      shows that the positive scale factor it omits changes no result. */
  function NormalVector(section: Section): (r: Vec3)
    ensures Dot(r, section.xAxis) == 0.0 && Dot(r, section.yAxis) == 0.0
  {
    CrossOrthogonal(section.xAxis, section.yAxis);
    Cross(section.xAxis, section.yAxis)
  }

  lemma CrossOrthogonal(a: Vec3, b: Vec3)
    ensures Dot(Cross(a, b), a) == 0.0 && Dot(Cross(a, b), b) == 0.0
  {
  }

  function Abs(r: real): real
  {
    if r < 0.0 then -r else r
  }

  /** The plane test of `intersectionOfLineAndPlane` against the plane through
      `origin` with normal `nv`: no point when both signed distances are 0 or
      both have the same strict sign, else the point at the ratio of the first
      distance to the sum of both. */
  function LinePlane(origin: Vec3, nv: Vec3, line: Line3): Option<Vec3>
  {
    var a := Dot(Sub(origin, line.start), nv);
    var b := Dot(Sub(origin, line.end), nv);
    if a == 0.0 && b == 0.0 then None
    else if 0.0 < a && 0.0 < b then None
    else if a < 0.0 && b < 0.0 then None
    else Some(At(line, Abs(a) / (Abs(a) + Abs(b))))
  }

  /** `intersectionOfLineAndPlane(section, line)`: a point it finds lies on the
      segment, at a parameter in [0, 1], and on the section's plane. */
  function IntersectionOfLineAndPlane(section: Section, line: Line3): (r: Option<Vec3>)
    ensures r.Some? ==> exists t :: 0.0 <= t <= 1.0 && r.value == At(line, t)
    ensures r.Some? ==> SignedDistance(section, r.value) == 0.0
  {
    var r := LinePlane(section.origin, NormalVector(section), line);
    if r.Some? then
      LinePlaneOnBothAt(section.origin, NormalVector(section), line);
      r
    else r
  }

  /** The signed distance of the two endpoints (scaled by the normal's length). */
  function SignedDistance(section: Section, p: Vec3): real
  {
    Dot(Sub(section.origin, p), NormalVector(section))
  }

  /** No point exactly when both endpoints lie in the plane or strictly on
      the same side of it. */
  lemma LinePlaneNone(section: Section, line: Line3)
    ensures var a, b := SignedDistance(section, line.start), SignedDistance(section, line.end);
      IntersectionOfLineAndPlane(section, line).None?
      <==> (a == 0.0 && b == 0.0) || (a > 0.0 && b > 0.0) || (a < 0.0 && b < 0.0)
  {
  }

  lemma LinePlaneOnBothAt(origin: Vec3, nv: Vec3, line: Line3)
    requires LinePlane(origin, nv, line).Some?
    ensures exists t :: 0.0 <= t <= 1.0 && LinePlane(origin, nv, line).value == At(line, t)
    ensures Dot(Sub(origin, LinePlane(origin, nv, line).value), nv) == 0.0
  {
    var a := Dot(Sub(origin, line.start), nv);
    var b := Dot(Sub(origin, line.end), nv);
    var t := Abs(a) / (Abs(a) + Abs(b));
    RateBounds(a, b);
    assert LinePlane(origin, nv, line).value == At(line, t);
    OnPlane(origin, nv, line, t);
    assert Dot(Sub(origin, At(line, t)), nv) == a - t * (a - b);
  }

  /** The ratio of `intersectionOfLineAndPlane` lies in [0, 1] and is `a / (a - b)`. */
  lemma RateBounds(a: real, b: real)
    requires !(a == 0.0 && b == 0.0) && !(0.0 < a && 0.0 < b) && !(a < 0.0 && b < 0.0)
    ensures 0.0 < Abs(a) + Abs(b)
    ensures var t := Abs(a) / (Abs(a) + Abs(b)); 0.0 <= t <= 1.0 && t * (a - b) == a
  {
    var s := Abs(a) + Abs(b);
    var t := Abs(a) / s;
    assert t * s == Abs(a);
    if a > 0.0 {
      assert s == a - b;
    } else if a < 0.0 {
      assert s == b - a;
    } else {
      assert t == 0.0;
    }
  }

  /** The signed distance of `At(line, t)` is interpolated linearly between
      those of the endpoints. */
  lemma OnPlane(origin: Vec3, nv: Vec3, line: Line3, t: real)
    ensures Dot(Sub(origin, At(line, t)), nv)
      == Dot(Sub(origin, line.start), nv) - t * (Dot(Sub(origin, line.start), nv) - Dot(Sub(origin, line.end), nv))
  {
    var s, e := line.start, line.end;
    assert Dot(Sub(origin, s), nv) - Dot(Sub(origin, e), nv) == Dot(Sub(e, s), nv);
    assert Dot(Sub(origin, At(line, t)), nv) == Dot(Sub(origin, s), nv) - Dot(Scale(t, Sub(e, s)), nv);
    assert Dot(Scale(t, Sub(e, s)), nv) == t * Dot(Sub(e, s), nv);
  }

  /** `normalVector` divides the cross product by its length (or by 1 when
      that is 0); no positive factor changes the outcome of the plane test. */
  lemma NormalScaleInvariant(origin: Vec3, nv: Vec3, c: real, line: Line3)
    requires c > 0.0
    ensures LinePlane(origin, Scale(c, nv), line) == LinePlane(origin, nv, line)
  {
    var a := Dot(Sub(origin, line.start), nv);
    var b := Dot(Sub(origin, line.end), nv);
    DotScale(Sub(origin, line.start), nv, c);
    DotScale(Sub(origin, line.end), nv, c);
    var a2 := Dot(Sub(origin, line.start), Scale(c, nv));
    var b2 := Dot(Sub(origin, line.end), Scale(c, nv));
    assert a2 == c * a && b2 == c * b;
    ScaledSign(a, c);
    ScaledSign(b, c);
    if !(a == 0.0 && b == 0.0) {
      RatioScaled(a, b, c);
      assert Abs(a2) / (Abs(a2) + Abs(b2)) == Abs(a) / (Abs(a) + Abs(b));
    }
  }

  lemma RatioScaled(a: real, b: real, c: real)
    requires c > 0.0 && !(a == 0.0 && b == 0.0)
    ensures Abs(c * a) / (Abs(c * a) + Abs(c * b)) == Abs(a) / (Abs(a) + Abs(b))
  {
    ScaledSign(a, c);
    ScaledSign(b, c);
    assert Abs(c * a) + Abs(c * b) == c * (Abs(a) + Abs(b));
    DivCancel(Abs(a), Abs(a) + Abs(b), c);
  }

  lemma DivCancel(x: real, s: real, c: real)
    requires s != 0.0 && c != 0.0
    ensures (c * x) / (c * s) == x / s
  {
    var q := x / s;
    assert q * s == x;
    assert q * (c * s) == c * x;
  }

  lemma DotScale(u: Vec3, v: Vec3, c: real)
    ensures Dot(u, Scale(c, v)) == c * Dot(u, v)
  {
  }

  lemma ScaledSign(a: real, c: real)
    requires c > 0.0
    ensures (c * a == 0.0 <==> a == 0.0) && (c * a > 0.0 <==> a > 0.0) && (c * a < 0.0 <==> a < 0.0)
    ensures Abs(c * a) == c * Abs(a)
  {
    if a > 0.0 {
      assert c * a > 0.0;
    } else if a < 0.0 {
      assert c * a < 0.0;
    }
  }

  /** `intersectionPointWithinSection`: the projections of `p - origin` onto
      both axes lie between 0 and the axis's squared length. */
  predicate WithinSection(section: Section, p: Vec3)
  {
    var op := Sub(p, section.origin);
    0.0 <= Dot(section.xAxis, op) <= NormSquared(section.xAxis)
    && 0.0 <= Dot(section.yAxis, op) <= NormSquared(section.yAxis)
  }

  /** The origin is within every section, and so are the far corners of a
      section whose axes are perpendicular. */
  lemma CornersWithin(section: Section)
    ensures WithinSection(section, section.origin)
    ensures Dot(section.xAxis, section.yAxis) == 0.0 ==>
      WithinSection(section, Add(section.origin, section.xAxis))
      && WithinSection(section, Add(section.origin, section.yAxis))
      && WithinSection(section, Add(Add(section.origin, section.xAxis), section.yAxis))
  {
    var o, x, y := section.origin, section.xAxis, section.yAxis;
    assert Sub(o, o) == Zero;
    assert Sub(Add(o, x), o) == x;
    assert Sub(Add(o, y), o) == y;
    assert Sub(Add(Add(o, x), y), o) == Add(x, y);
    assert Dot(x, Add(x, y)) == Dot(x, x) + Dot(x, y);
    assert Dot(y, Add(x, y)) == Dot(y, x) + Dot(y, y);
  }

  /** Along a non-zero x axis perpendicular to the y axis, the point at
      parameter `t` is within the section exactly for `t` in [0, 1]: the far
      edge (`dot == |xAxis|²`) is inside and anything beyond it is not. */
  lemma AlongAxisWithin(section: Section, t: real)
    requires NormSquared(section.xAxis) > 0.0 && Dot(section.xAxis, section.yAxis) == 0.0
    ensures WithinSection(section, Add(section.origin, Scale(t, section.xAxis))) <==> 0.0 <= t <= 1.0
  {
    var o, x, y := section.origin, section.xAxis, section.yAxis;
    var op := Sub(Add(o, Scale(t, x)), o);
    AxisProjections(o, x, y, t);
    assert 0.0 <= Dot(y, op) <= NormSquared(y);
    UnitInterval(t, NormSquared(x), Dot(x, op));
  }

  /** The projections onto both axes of the point `t` along an x axis
      perpendicular to the y axis. */
  lemma AxisProjections(o: Vec3, x: Vec3, y: Vec3, t: real)
    requires Dot(x, y) == 0.0
    ensures Dot(x, Sub(Add(o, Scale(t, x)), o)) == t * NormSquared(x)
    ensures Dot(y, Sub(Add(o, Scale(t, x)), o)) == 0.0
  {
    assert Sub(Add(o, Scale(t, x)), o) == Scale(t, x);
    DotScale(x, x, t);
    DotScale(y, x, t);
    assert Dot(y, x) == Dot(x, y);
  }

  /** For a positive `n`, the product `p = t * n` lies in [0, n] exactly for `t` in [0, 1]. */
  lemma UnitInterval(t: real, n: real, p: real)
    requires n > 0.0 && p == t * n
    ensures 0.0 <= p <= n <==> 0.0 <= t <= 1.0
  {
    assert n - p == (1.0 - t) * n;
    if t < 0.0 {
      assert p < 0.0;
    } else if t > 1.0 {
      assert (1.0 - t) * n < 0.0;
    } else {
      assert 0.0 <= (1.0 - t) * n;
    }
  }

  /** `intersectionOfLineAndSection`: the plane intersection, kept only when
      it is within the section. */
  function IntersectionOfLineAndSection(section: Section, line: Line3): (r: Option<Vec3>)
    ensures r.Some? <==>
      IntersectionOfLineAndPlane(section, line).Some? && WithinSection(section, IntersectionOfLineAndPlane(section, line).value)
    ensures r.Some? ==> r == IntersectionOfLineAndPlane(section, line)
  {
    match IntersectionOfLineAndPlane(section, line)
    case None => None
    case Some(p) => if WithinSection(section, p) then Some(p) else None
  }

  /** The corners 0, 1, 2, 3 of the target, in the order origin, +x, +x+y, +y. */
  function Vertexes(s: Section): seq<Vec3>
  {
    [s.origin, Add(s.origin, s.xAxis), Add(Add(s.origin, s.xAxis), s.yAxis), Add(s.origin, s.yAxis)]
  }

  /** The four edges 0-1, 1-2, 2-3, 3-0. */
  function Edges(s: Section): (r: seq<Line3>)
    ensures |r| == 4
  {
    var v := Vertexes(s);
    [Line3(v[0], v[1]), Line3(v[1], v[2]), Line3(v[2], v[3]), Line3(v[3], v[0])]
  }

  /** The intersections of the first `n` edges with the base plane, in edge order. */
  function Hits(base: Section, edges: seq<Line3>, n: nat): seq<Vec3>
    requires n <= |edges|
  {
    if n == 0 then []
    else
      var rest := Hits(base, edges, n - 1);
      match IntersectionOfLineAndPlane(base, edges[n - 1])
      case None => rest
      case Some(p) => rest + [p]
  }

  /** The source's `distanceTo(...) > 0.0001`, compared on squared distances. */
  predicate FarApart(p: Vec3, q: Vec3)
  {
    NormSquared(Sub(p, q)) > 0.00000001
  }

  /** The first index from `from` on whose hit is `far` from hit 0, if any;
      `far` is `FarApart`, kept abstract here. */
  function FirstFar(far: (Vec3, Vec3) -> bool, hits: seq<Vec3>, from: nat): (r: Option<nat>)
    requires 1 <= from && |hits| >= 1
    decreases |hits| - from
    ensures r.Some? ==> from <= r.value < |hits| && far(hits[0], hits[r.value])
    ensures r.Some? ==> forall i :: from <= i < r.value ==> !far(hits[0], hits[i])
    ensures r.None? ==> forall i :: from <= i < |hits| ==> !far(hits[0], hits[i])
  {
    if from >= |hits| then None
    else if far(hits[0], hits[from]) then Some(from)
    else FirstFar(far, hits, from + 1)
  }

  /** What `intersectionOfTwoSections(base, target)` returns. */
  function TwoSections(base: Section, target: Section): Option<Line3>
  {
    var hits := Hits(base, Edges(target), 4);
    if |hits| < 2 then None
    else if forall p | p in hits :: !WithinSection(base, p) then None
    else
      match FirstFar(FarApart, hits, 1)
      case None => None
      case Some(i) => Some(Line3(hits[0], hits[i]))
  }

  /** `intersectionOfTwoSections`: collect the edge crossings, then the first
      crossing far enough from the first one closes the segment. */
  method IntersectionOfTwoSections(base: Section, target: Section) returns (r: Option<Line3>)
    ensures r == TwoSections(base, target)
  {
    var intersections := Crossings(base, Edges(target));
    if |intersections| < 2 {
      return None;
    }
    if forall p | p in intersections :: !WithinSection(base, p) {
      return None;
    }
    var far := FarIndex(intersections);
    if far.Some? {
      return Some(Line3(intersections[0], intersections[far.value]));
    }
    return None;
  }

  /** The loop over the four edges, keeping every crossing in edge order. */
  method Crossings(base: Section, edges: seq<Line3>) returns (intersections: seq<Vec3>)
    requires |edges| == 4
    ensures intersections == Hits(base, edges, 4)
  {
    intersections := [];
    for i := 0 to 4
      invariant intersections == Hits(base, edges, i)
    {
      var intersection := IntersectionOfLineAndPlane(base, edges[i]);
      if intersection.Some? {
        intersections := intersections + [intersection.value];
      }
    }
  }

  /** The loop from index 1 for a crossing far from the first. */
  method FarIndex(intersections: seq<Vec3>) returns (r: Option<nat>)
    requires |intersections| >= 1
    ensures r == FirstFar(FarApart, intersections, 1)
  {
    var i := 1;
    while i < |intersections|
      invariant 1 <= i <= |intersections|
      invariant FirstFar(FarApart, intersections, 1) == FirstFar(FarApart, intersections, i)
    {
      if FarApart(intersections[0], intersections[i]) {
        return Some(i);
      }
      i := i + 1;
    }
    return None;
  }

  /** Hits are edge crossings: each is the plane intersection of some edge. */
  lemma {:induction false} HitsAreCrossings(base: Section, edges: seq<Line3>, n: nat, k: nat)
    requires n <= |edges| && k < |Hits(base, edges, n)|
    ensures exists e :: 0 <= e < n && IntersectionOfLineAndPlane(base, edges[e]) == Some(Hits(base, edges, n)[k])
  {
    var rest := Hits(base, edges, n - 1);
    if k < |rest| {
      HitsAreCrossings(base, edges, n - 1, k);
    } else {
      assert IntersectionOfLineAndPlane(base, edges[n - 1]) == Some(Hits(base, edges, n)[k]);
    }
  }

  /** A found segment joins the first crossing to a later crossing that is
      far from it, and one of the crossings is within the base. */
  lemma TwoSectionsSegment(base: Section, target: Section)
    requires TwoSections(base, target).Some?
    ensures var hits := Hits(base, Edges(target), 4); var l := TwoSections(base, target).value;
      2 <= |hits| && l.start == hits[0] && l.end in hits[1..] && FarApart(l.start, l.end)
      && exists p :: p in hits && WithinSection(base, p)
  {
    var hits := Hits(base, Edges(target), 4);
    var i := FirstFar(FarApart, hits, 1).value;
    assert hits[i] == hits[1..][i - 1];
  }

  /** A target lying in the base's plane (all four corners at signed distance
      0) never crosses it: every edge meets the zero/zero case. */
  lemma CoplanarTargetNone(base: Section, target: Section)
    requires forall v | v in Vertexes(target) :: SignedDistance(base, v) == 0.0
    ensures TwoSections(base, target).None?
  {
    var v := Vertexes(target);
    assert SignedDistance(base, v[0]) == 0.0 && SignedDistance(base, v[1]) == 0.0;
    assert SignedDistance(base, v[2]) == 0.0 && SignedDistance(base, v[3]) == 0.0;
    NoCrossingsNoHits(base, Edges(target), 4);
  }

  lemma {:induction false} NoCrossingsNoHits(base: Section, edges: seq<Line3>, n: nat)
    requires n <= |edges|
    requires forall e :: 0 <= e < n ==> IntersectionOfLineAndPlane(base, edges[e]).None?
    ensures Hits(base, edges, n) == []
  {
    if n > 0 {
      NoCrossingsNoHits(base, edges, n - 1);
    }
  }

  /** In particular a section intersected with itself gives no segment. */
  lemma SelfIntersectionNone(s: Section)
    ensures TwoSections(s, s).None?
  {
    var o, x, y := s.origin, s.xAxis, s.yAxis;
    var n := NormalVector(s);
    assert SignedDistance(s, o) == 0.0 by {
      assert Sub(o, o) == Zero;
    }
    assert SignedDistance(s, Add(o, x)) == -Dot(x, n) by {
      assert Sub(o, Add(o, x)) == Scale(-1.0, x);
      DotScaleLeft(x, n, -1.0);
    }
    assert SignedDistance(s, Add(o, y)) == -Dot(y, n) by {
      assert Sub(o, Add(o, y)) == Scale(-1.0, y);
      DotScaleLeft(y, n, -1.0);
    }
    assert SignedDistance(s, Add(Add(o, x), y)) == -Dot(x, n) - Dot(y, n) by {
      assert Sub(o, Add(Add(o, x), y)) == Add(Scale(-1.0, x), Scale(-1.0, y));
      DotAdd(Scale(-1.0, x), Scale(-1.0, y), n);
      DotScaleLeft(x, n, -1.0);
      DotScaleLeft(y, n, -1.0);
    }
    CoplanarTargetNone(s, s);
  }

  lemma DotScaleLeft(u: Vec3, v: Vec3, c: real)
    ensures Dot(Scale(c, u), v) == c * Dot(u, v)
  {
  }

  lemma DotAdd(u: Vec3, w: Vec3, v: Vec3)
    ensures Dot(Add(u, w), v) == Dot(u, v) + Dot(w, v)
  {
  }
}
