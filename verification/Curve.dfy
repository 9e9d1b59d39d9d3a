/** The estimator's curves: piecewise-linear interpolation over configured points, clamped outside their range. */
module Curve {
  import opened Common

  /** An (x, y) point of a configured curve. */
  type Point = (real, real)

  // ------------------------------------------------------------------ sorted(points)

  predicate TupleAtMost(p: Point, q: Point) { p.0 < q.0 || (p.0 == q.0 && p.1 <= q.1) }

  function Insert(sorted: seq<Point>, p: Point): (r: seq<Point>)
    ensures |r| == |sorted| + 1
  {
    if sorted == [] || TupleAtMost(sorted[|sorted| - 1], p) then sorted + [p]
    else Insert(sorted[..|sorted| - 1], p) + [sorted[|sorted| - 1]]
  }

  function Sorted(points: seq<Point>): (r: seq<Point>)
    ensures |r| == |points|
  {
    if points == [] then [] else Insert(Sorted(points[..|points| - 1]), points[|points| - 1])
  }

  ghost predicate Ascending(pts: seq<Point>) { forall i, j | 0 <= i < j < |pts| :: pts[i].0 <= pts[j].0 }

  ghost predicate StrictlyAscending(pts: seq<Point>) { forall i, j | 0 <= i < j < |pts| :: pts[i].0 < pts[j].0 }

  /** No two points share an x. */
  ghost predicate DistinctX(points: seq<Point>) { forall i, j | 0 <= i < j < |points| :: points[i].0 != points[j].0 }

  lemma {:induction false} InsertKeeps(sorted: seq<Point>, p: Point)
    ensures forall q :: q in Insert(sorted, p) <==> q in sorted || q == p
    ensures DistinctX(sorted) && (forall q | q in sorted :: q.0 != p.0) ==> DistinctX(Insert(sorted, p))
  {
    if sorted != [] && !TupleAtMost(sorted[|sorted| - 1], p) {
      var front := sorted[..|sorted| - 1];
      assert sorted == front + [sorted[|sorted| - 1]];
      InsertKeeps(front, p);
      if DistinctX(sorted) && forall q | q in sorted :: q.0 != p.0 { LastDiffers(Insert(front, p), front, p, sorted[|front|]); }
    }
  }

  lemma LastDiffers(r: seq<Point>, front: seq<Point>, p: Point, last: Point)
    requires DistinctX(r) && (forall q :: q in r <==> q in front || q == p)
    requires DistinctX(front + [last]) && p.0 != last.0
    ensures DistinctX(r + [last])
  {
    forall i | 0 <= i < |r| ensures r[i].0 != last.0 {
      assert r[i] in r;
      if r[i] in front { var j :| 0 <= j < |front| && front[j] == r[i]; assert (front + [last])[j] == r[i] && (front + [last])[|front|] == last; }
    }
  }

  lemma {:induction false} InsertSorts(sorted: seq<Point>, p: Point)
    requires Ascending(sorted)
    ensures Ascending(Insert(sorted, p))
  {
    if sorted != [] && !TupleAtMost(sorted[|sorted| - 1], p) {
      var (front, last) := (sorted[..|sorted| - 1], sorted[|sorted| - 1]);
      InsertSorts(front, p);
      InsertKeeps(front, p);
      var r := Insert(front, p);
      forall i | 0 <= i < |r| ensures r[i].0 <= last.0 { assert r[i] in r; }
    }
  }

  lemma {:induction false} SortedIs(points: seq<Point>)
    ensures Ascending(Sorted(points)) && forall q :: q in Sorted(points) <==> q in points
  {
    if points != [] {
      var front := points[..|points| - 1];
      assert points == front + [points[|front|]];
      SortedIs(front);
      InsertKeeps(Sorted(front), points[|front|]);
      InsertSorts(Sorted(front), points[|front|]);
    }
  }

  lemma {:induction false} SortedIsDistinct(points: seq<Point>)
    requires DistinctX(points)
    ensures StrictlyAscending(Sorted(points))
  {
    SortedKeepsDistinct(points);
    SortedIs(points);
    var r := Sorted(points);
    forall i, j | 0 <= i < j < |r| ensures r[i].0 < r[j].0 { assert r[i].0 <= r[j].0 && r[i].0 != r[j].0; }
  }

  lemma {:induction false} SortedKeepsDistinct(points: seq<Point>)
    requires DistinctX(points)
    ensures DistinctX(Sorted(points))
  {
    if points != [] {
      var (front, last) := (points[..|points| - 1], points[|points| - 1]);
      SortedKeepsDistinct(front);
      SortedIs(front);
      forall q | q in Sorted(front) ensures q.0 != last.0 { var i :| 0 <= i < |front| && front[i] == q; assert points[i].0 != last.0; }
      InsertKeeps(Sorted(front), last);
    }
  }

  // ------------------------------------------------------------------ interpolate

  /** The value at x of the line through p and q. */
  function Line(p: Point, q: Point, x: real): real
    requires p.0 != q.0
  {
    p.1 + Portion(q.1 - p.1, x - p.0, q.0 - p.0)
  }

  function Portion(d: real, a: real, c: real): real
    requires c != 0.0
  {
    d * a / c
  }

  /** The first pair from i on whose x range holds x decides. */
  function Search(pts: seq<Point>, x: real, i: nat): real
    requires i < |pts|
    decreases |pts| - i
  {
    if i + 1 == |pts| then pts[i].1
    else if pts[i].0 <= x <= pts[i + 1].0 then
      if pts[i + 1].0 == pts[i].0 then pts[i + 1].1 else Line(pts[i], pts[i + 1], x)
    else Search(pts, x, i + 1)
  }

  function At(pts: seq<Point>, x: real): real
    requires pts != []
  {
    if x <= pts[0].0 then pts[0].1
    else if x >= pts[|pts| - 1].0 then pts[|pts| - 1].1
    else Search(pts, x, 0)
  }

  function Interpolated(points: seq<Point>, x: real): real
    requires points != []
  {
    At(Sorted(points), x)
  }

  method Interpolate(points: seq<Point>, x: real) returns (y: real)
    requires points != []
    ensures y == Interpolated(points, x)
  {
    var pts := Sorted(points);
    if x <= pts[0].0 { return pts[0].1; }
    if x >= pts[|pts| - 1].0 { return pts[|pts| - 1].1; }
    var i := 0;
    while i + 1 < |pts|
      invariant i < |pts| && Search(pts, x, i) == Search(pts, x, 0)
    {
      var (p, q) := (pts[i], pts[i + 1]);
      if p.0 <= x <= q.0 {
        if q.0 == p.0 { return q.1; }
        assert Search(pts, x, i) == Line(p, q, x);
        y := p.1 + (q.1 - p.1) * (x - p.0) / (q.0 - p.0);
        assert y == Line(p, q, x);
        return;
      }
      i := i + 1;
    }
    return pts[|pts| - 1].1;
  }

  // ------------------------------------------------------------------ lines

  /** a is not beyond b in the given direction. */
  predicate Toward(up: bool, a: real, b: real) { if up then a <= b else b <= a }

  /** A fraction of a rise: k in [0, 1] of d, and more of it for a larger k. */
  lemma Fraction(d: real, a: real, b: real, c: real, up: bool)
    requires 0.0 <= a <= b <= c && c > 0.0 && Toward(up, 0.0, d)
    ensures Toward(up, 0.0, Portion(d, a, c)) && Toward(up, Portion(d, a, c), Portion(d, b, c)) && Toward(up, Portion(d, b, c), d)
  {
    PortionEnds(d, c);
    PortionGrows(d, 0.0, a, c, up);
    PortionGrows(d, a, b, c, up);
    PortionGrows(d, b, c, c, up);
  }

  lemma PortionEnds(d: real, c: real)
    requires c != 0.0
    ensures Portion(d, 0.0, c) == 0.0 && Portion(d, c, c) == d
  {
  }

  lemma PortionGrows(d: real, a: real, b: real, c: real, up: bool)
    requires a <= b && c > 0.0 && Toward(up, 0.0, d)
    ensures Toward(up, Portion(d, a, c), Portion(d, b, c))
  {
    Scale(d, a, b, up);
    Divide(d * a, d * b, c, up);
  }

  lemma Scale(d: real, a: real, b: real, up: bool)
    requires a <= b && Toward(up, 0.0, d)
    ensures Toward(up, d * a, d * b)
  {
    assert d * b - d * a == d * (b - a);
    if up { Product(d, b - a); } else { Product(-d, b - a); assert (-d) * (b - a) == -(d * (b - a)); }
  }

  lemma Divide(p: real, q: real, c: real, up: bool)
    requires c > 0.0 && Toward(up, p, q)
    ensures Toward(up, p / c, q / c)
  {
  }

  /** Between its points a line stays between their values and moves toward the second. */
  lemma LineMoves(p: Point, q: Point, x: real, z: real, up: bool)
    requires p.0 < q.0 && p.0 <= x <= z <= q.0 && Toward(up, p.1, q.1)
    ensures Toward(up, p.1, Line(p, q, x)) && Toward(up, Line(p, q, x), Line(p, q, z)) && Toward(up, Line(p, q, z), q.1)
  {
    Fraction(q.1 - p.1, x - p.0, z - p.0, q.0 - p.0, up);
  }

  // ------------------------------------------------------------------ the curve

  /** The segment that decides at x. */
  function Segment(pts: seq<Point>, x: real, i: nat): (s: nat)
    requires i + 1 < |pts| && Ascending(pts) && pts[i].0 <= x <= pts[|pts| - 1].0
    ensures i <= s && s + 1 < |pts| && pts[s].0 <= x <= pts[s + 1].0
    ensures Search(pts, x, i) == if pts[s].0 == pts[s + 1].0 then pts[s + 1].1 else Line(pts[s], pts[s + 1], x)
    decreases |pts| - i
  {
    if x <= pts[i + 1].0 then i else Segment(pts, x, i + 1)
  }

  /** Whatever bounds the points' values bounds the curve. */
  lemma AtInRange(pts: seq<Point>, x: real, lo: real, hi: real)
    requires pts != [] && Ascending(pts) && forall i | 0 <= i < |pts| :: lo <= pts[i].1 <= hi
    ensures lo <= At(pts, x) <= hi
  {
    if pts[0].0 < x < pts[|pts| - 1].0 {
      var s := Segment(pts, x, 0);
      if pts[s].0 != pts[s + 1].0 { LineMoves(pts[s], pts[s + 1], x, x, pts[s].1 <= pts[s + 1].1); }
    }
  }

  /** The curve never leaves the configured values. */
  lemma StaysInRange(points: seq<Point>, x: real, lo: real, hi: real)
    requires points != [] && forall p | p in points :: lo <= p.1 <= hi
    ensures lo <= Interpolated(points, x) <= hi
  {
    SortedIs(points);
    var pts := Sorted(points);
    forall i | 0 <= i < |pts| ensures lo <= pts[i].1 <= hi { assert pts[i] in pts; }
    AtInRange(pts, x, lo, hi);
  }

  /** Values move one way as x grows. */
  ghost predicate Moves(pts: seq<Point>, up: bool) { forall p, q | p in pts && q in pts && p.0 <= q.0 :: Toward(up, p.1, q.1) }

  /** Before a point the curve has not reached its value, from it on it has. */
  lemma PastPoint(pts: seq<Point>, x: real, k: nat, up: bool)
    requires StrictlyAscending(pts) && Moves(pts, up) && k < |pts|
    ensures pts[k].0 <= x ==> Toward(up, pts[k].1, At(pts, x))
    ensures x <= pts[k].0 ==> Toward(up, At(pts, x), pts[k].1)
  {
    if pts[0].0 < x < pts[|pts| - 1].0 {
      var s := Segment(pts, x, 0);
      var (p, q) := (pts[s], pts[s + 1]);
      assert p in pts && q in pts && pts[k] in pts;
      LineMoves(p, q, x, x, up);
      LineEnds(p, q);
      if k <= s { InOrder(pts, k, s); } else { InOrder(pts, s + 1, k); }
    } else {
      assert pts[0] in pts && pts[|pts| - 1] in pts && pts[k] in pts;
    }
  }

  lemma LineEnds(p: Point, q: Point)
    requires p.0 < q.0
    ensures Line(p, q, p.0) == p.1 && Line(p, q, q.0) == q.1
  {
    assert (q.1 - p.1) * (q.0 - p.0) / (q.0 - p.0) == q.1 - p.1;
  }

  lemma AtKnot(pts: seq<Point>, k: nat)
    requires StrictlyAscending(pts) && k < |pts|
    ensures At(pts, pts[k].0) == pts[k].1
  {
    if 0 < k < |pts| - 1 {
      var s := Segment(pts, pts[k].0, 0);
      LineEnds(pts[s], pts[s + 1]);
      if s < k { InOrder(pts, s + 1, k); } else { InOrder(pts, k, s); }
    }
  }

  /** The curve passes through every configured point. */
  lemma PassesThrough(points: seq<Point>, p: Point)
    requires DistinctX(points) && p in points
    ensures Interpolated(points, p.0) == p.1
  {
    SortedIs(points);
    SortedIsDistinct(points);
    var k :| 0 <= k < |Sorted(points)| && Sorted(points)[k] == p;
    AtKnot(Sorted(points), k);
  }

  lemma AtMoves(pts: seq<Point>, x: real, z: real, up: bool)
    requires pts != [] && StrictlyAscending(pts) && Moves(pts, up) && x <= z
    ensures Toward(up, At(pts, x), At(pts, z))
  {
    if k: nat :| k < |pts| && x <= pts[k].0 <= z {
      PastPoint(pts, x, k, up);
      PastPoint(pts, z, k, up);
    } else if pts[0].0 < x && z < pts[|pts| - 1].0 {
      var s := Segment(pts, x, 0);
      assert x != pts[s].0 && z < pts[s + 1].0;
      SameSegment(pts, x, z, s);
      SameSegment(pts, x, x, s);
      assert pts[s] in pts && pts[s + 1] in pts;
      LineMoves(pts[s], pts[s + 1], x, z, up);
    } else {
      assert !(x <= pts[0].0 <= z) && !(x <= pts[|pts| - 1].0 <= z);
    }
  }

  lemma SameSegment(pts: seq<Point>, x: real, z: real, s: nat)
    requires StrictlyAscending(pts) && s + 1 < |pts| && x <= z
    requires pts[s].0 < x && z < pts[s + 1].0
    ensures At(pts, z) == Line(pts[s], pts[s + 1], z)
  {
    InOrder(pts, 0, s);
    InOrder(pts, s + 1, |pts| - 1);
    var t := Segment(pts, z, 0);
    InOrder(pts, t + 1, s);
    InOrder(pts, s + 1, t);
  }

  lemma InOrder(pts: seq<Point>, i: nat, j: nat)
    requires StrictlyAscending(pts) && i < |pts| && j < |pts|
    ensures i <= j ==> pts[i].0 <= pts[j].0
  {
  }

  /** A rising curve never falls and a falling curve never rises. */
  lemma InterpolatedMoves(points: seq<Point>, x: real, z: real, up: bool)
    requires points != [] && DistinctX(points) && Moves(points, up) && x <= z
    ensures Toward(up, Interpolated(points, x), Interpolated(points, z))
  {
    SortedIs(points);
    SortedIsDistinct(points);
    AtMoves(Sorted(points), x, z, up);
  }

  lemma LineEquation(p: Point, q: Point, x: real)
    requires p.0 != q.0
    ensures (Line(p, q, x) - p.1) * (q.0 - p.0) == (q.1 - p.1) * (x - p.0)
  {
    var (d, c) := ((q.1 - p.1) * (x - p.0), q.0 - p.0);
    assert d / c * c == d;
  }

  lemma Neighbours(points: seq<Point>, p: Point, q: Point) returns (k: nat)
    requires DistinctX(points) && p in points && q in points && p.0 < q.0 && forall r | r in points :: r.0 <= p.0 || q.0 <= r.0
    ensures k + 1 < |Sorted(points)| && Sorted(points)[k] == p && Sorted(points)[k + 1] == q && StrictlyAscending(Sorted(points))
  {
    SortedIs(points);
    SortedIsDistinct(points);
    var pts := Sorted(points);
    k :| 0 <= k < |pts| && pts[k] == p;
    var m :| 0 <= m < |pts| && pts[m] == q;
    InOrder(pts, m, k);
    assert pts[k + 1] in pts;
    assert pts[k].0 < pts[k + 1].0;
    InOrder(pts, k + 1, m);
    assert pts[k + 1].0 == q.0;
  }

  /** Between two neighbouring points the curve is the line through them. */
  lemma OnTheLine(points: seq<Point>, p: Point, q: Point, x: real)
    requires DistinctX(points) && p in points && q in points && p.0 < q.0 && forall r | r in points :: r.0 <= p.0 || q.0 <= r.0
    requires p.0 <= x <= q.0
    ensures (Interpolated(points, x) - p.1) * (q.0 - p.0) == (q.1 - p.1) * (x - p.0)
  {
    var y := ValueBetween(points, p, q, x);
    ValueOnLine(p, q, x, y);
  }

  lemma ValueBetween(points: seq<Point>, p: Point, q: Point, x: real) returns (y: real)
    requires DistinctX(points) && p in points && q in points && p.0 < q.0 && forall r | r in points :: r.0 <= p.0 || q.0 <= r.0
    requires p.0 <= x <= q.0
    ensures y == Interpolated(points, x) && if x == p.0 then y == p.1 else if x == q.0 then y == q.1 else y == Line(p, q, x)
  {
    y := Interpolated(points, x);
    var k := Neighbours(points, p, q);
    if x == p.0 {
      PassesThrough(points, p);
    } else if x == q.0 {
      PassesThrough(points, q);
    } else {
      SameSegment(Sorted(points), x, x, k);
    }
  }

  lemma ValueOnLine(p: Point, q: Point, x: real, y: real)
    requires p.0 < q.0 && if x == p.0 then y == p.1 else if x == q.0 then y == q.1 else y == Line(p, q, x)
    ensures (y - p.1) * (q.0 - p.0) == (q.1 - p.1) * (x - p.0)
  {
    if x != p.0 && x != q.0 { LineEquation(p, q, x); }
  }

  /** Before the first point and after the last the curve keeps their values. */
  lemma Clamped(points: seq<Point>, p: Point, x: real)
    requires DistinctX(points) && p in points
    ensures x <= p.0 && (forall r | r in points :: p.0 <= r.0) ==> Interpolated(points, x) == p.1
    ensures x >= p.0 && (forall r | r in points :: r.0 <= p.0) ==> Interpolated(points, x) == p.1
  {
    SortedIs(points);
    SortedIsDistinct(points);
    var pts := Sorted(points);
    var k :| 0 <= k < |pts| && pts[k] == p;
    var (first, last) := (pts[0], pts[|pts| - 1]);
    assert first in points && last in points;
    PassesThrough(points, p);
    if forall r | r in points :: p.0 <= r.0 { assert k == 0; }
    if forall r | r in points :: r.0 <= p.0 { assert k == |pts| - 1; }
  }
}
