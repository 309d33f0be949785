/** Greedy piecewise linear regression over (key, position) points (mod/plr.cpp).
    Arithmetic is exact: doubles are reals. */
module Plr {

  datatype Point = Point(x: real, y: real)
  datatype Line = Line(a: real, b: real)
  datatype Segment = Segment(x: nat, k: real, b: real, x2: nat)

  /** What process and finish return when there is no segment. */
  const NONE: Segment := Segment(0, 0.0, 0.0, 0)

  function GetSlope(p1: Point, p2: Point): real
    requires p1.x != p2.x
  {
    (p2.y - p1.y) / (p2.x - p1.x)
  }

  function GetLine(p1: Point, p2: Point): Line
    requires p1.x != p2.x
  {
    var a := GetSlope(p1, p2);
    Line(a, -a * p1.x + p1.y)
  }

  function GetIntersection(l1: Line, l2: Line): Point
    requires l1.a != l2.a
  {
    Point((l2.b - l1.b) / (l1.a - l2.a), (l1.a * l2.b - l2.a * l1.b) / (l1.a - l2.a))
  }

  function At(l: Line, x: real): real {
    l.a * x + l.b
  }

  predicate IsAbove(p: Point, l: Line) { p.y > At(l, p.x) }
  predicate IsBelow(p: Point, l: Line) { p.y < At(l, p.x) }

  function UpperBound(p: Point, gamma: real): Point { Point(p.x, p.y + gamma) }
  function LowerBound(p: Point, gamma: real): Point { Point(p.x, p.y - gamma) }

  // ----- geometry -----

  /** Multiplication under a name, so that proofs can treat a product as a unit. */
  function Mul(m: real, t: real): real { m * t }

  lemma DivMul(n: real, d: real)
    requires d != 0.0
    ensures Mul(n / d, d) == n
  {
  }

  lemma MulMinus(m: real, x: real, z: real)
    ensures Mul(m, x - z) == m * x - m * z
  {
  }

  lemma MulOrder(a: real, b: real, t: real)
    requires a <= b
    ensures t >= 0.0 ==> Mul(a, t) <= Mul(b, t)
    ensures t <= 0.0 ==> Mul(b, t) <= Mul(a, t)
  {
    var c := b - a;
    assert Mul(b, t) - Mul(a, t) == c * t;
    if t >= 0.0 {
      assert c * t >= 0.0;
    } else {
      assert c * (-t) >= 0.0;
    }
  }

  lemma MulStrict(a: real, b: real, t: real)
    requires Mul(a, t) < Mul(b, t) && t > 0.0
    ensures a < b
  {
    if a >= b { MulOrder(b, a, t); }
  }

  lemma Cancel(u: real, v: real, d: real)
    requires d != 0.0 && Mul(u, d) == Mul(v, d)
    ensures u == v
  {
    var w := u - v;
    assert w * d == 0.0;
  }

  lemma LineThrough(p1: Point, p2: Point)
    requires p1.x != p2.x
    ensures At(GetLine(p1, p2), p1.x) == p1.y && At(GetLine(p1, p2), p2.x) == p2.y
  {
    DivMul(p2.y - p1.y, p2.x - p1.x);
    MulMinus(GetSlope(p1, p2), p2.x, p1.x);
  }

  lemma Meet(l1: Line, l2: Line)
    requires l1.a != l2.a
    ensures var p := GetIntersection(l1, l2); At(l1, p.x) == p.y && At(l2, p.x) == p.y
  {
    var p, d := GetIntersection(l1, l2), l1.a - l2.a;
    DivMul(l2.b - l1.b, d);
    DivMul(l1.a * l2.b - l2.a * l1.b, d);
    Crossing(l1.a, l2.a, l1.b, l2.b, p.x, p.y, d);
  }

  lemma Crossing(a: real, b: real, c: real, e: real, x: real, y: real, d: real)
    requires d == a - b && d != 0.0 && Mul(x, d) == e - c && Mul(y, d) == a * e - b * c
    ensures a * x + c == y && b * x + e == y
  {
    Scale(a, x, c, d);
    assert Mul(a, e - c) + c * d == a * e - b * c;
    Cancel(a * x + c, y, d);
    Scale(b, x, e, d);
    assert Mul(b, e - c) + e * d == a * e - b * c;
    Cancel(b * x + e, y, d);
  }

  lemma Scale(a: real, x: real, c: real, d: real)
    ensures Mul(a * x + c, d) == Mul(a, Mul(x, d)) + c * d
  {
  }

  /** A line through s, seen from s. */
  lemma FromPoint(l: Line, s: Point, x: real)
    requires At(l, s.x) == s.y
    ensures At(l, x) == s.y + Mul(l.a, x - s.x)
  {
    MulMinus(l.a, x, s.x);
  }

  // ----- the cone -----

  /** y is within gamma of the line with slope m through s. */
  predicate Near(m: real, s: Point, p: Point, gamma: real) {
    -gamma <= s.y + Mul(m, p.x - s.x) - p.y <= gamma
  }

  predicate AllNear(m: real, s: Point, pts: seq<Point>, gamma: real) {
    forall i :: 0 <= i < |pts| ==> Near(m, s, pts[i], gamma)
  }

  lemma Sandwich(a: real, b: real, c: real, y: real, gamma: real)
    requires a <= b <= c || c <= b <= a
    requires -gamma <= y + a <= gamma && -gamma <= y + c <= gamma
    ensures -gamma <= y + b <= gamma
  {
  }

  /** A slope between two that fit a point fits it too, on either side of s. */
  lemma BetweenIsNear(lo: real, m: real, hi: real, s: Point, p: Point, gamma: real)
    requires lo <= m <= hi && Near(lo, s, p, gamma) && Near(hi, s, p, gamma)
    ensures Near(m, s, p, gamma)
  {
    var t := p.x - s.x;
    MulOrder(lo, m, t);
    MulOrder(m, hi, t);
    Sandwich(Mul(lo, t), Mul(m, t), Mul(hi, t), s.y - p.y, gamma);
  }

  lemma BetweenFits(lo: real, m: real, hi: real, s: Point, pts: seq<Point>, gamma: real)
    requires lo <= m <= hi && AllNear(lo, s, pts, gamma) && AllNear(hi, s, pts, gamma)
    ensures AllNear(m, s, pts, gamma)
  {
    forall i | 0 <= i < |pts| ensures Near(m, s, pts[i], gamma) {
      BetweenIsNear(lo, m, hi, s, pts[i], gamma);
    }
  }

  /** The cone of lines through sint between lower and upper. */
  ghost predicate Cone(lower: Line, upper: Line, sint: Point, pts: seq<Point>, gamma: real) {
    && lower.a < upper.a
    && At(lower, sint.x) == sint.y && At(upper, sint.x) == sint.y
    && AllNear(lower.a, sint, pts, gamma) && AllNear(upper.a, sint, pts, gamma)
  }

  /** Every slope in the cone fits every accepted point. */
  lemma ConeFits(lower: Line, upper: Line, sint: Point, pts: seq<Point>, gamma: real, m: real)
    requires Cone(lower, upper, sint, pts, gamma) && lower.a <= m <= upper.a
    ensures AllNear(m, sint, pts, gamma)
  {
    BetweenFits(lower.a, m, upper.a, sint, pts, gamma);
  }

  function Middle(p: Point, q: Point): Point {
    Point((p.x + q.x) / 2.0, (p.y + q.y) / 2.0)
  }

  lemma NearAt(l: Line, s: Point, p: Point, gamma: real)
    requires At(l, s.x) == s.y && -gamma <= At(l, p.x) - p.y <= gamma
    ensures Near(l.a, s, p, gamma)
  {
    FromPoint(l, s, p.x);
  }

  /** A steeper climb between the same two keys is a larger slope. */
  lemma SteeperSlope(l: Line, u: Line, x: real, z: real)
    requires x < z && At(l, z) - At(l, x) < At(u, z) - At(u, x)
    ensures l.a < u.a
  {
    MulMinus(l.a, z, x);
    MulMinus(u.a, z, x);
    MulStrict(l.a, u.a, z - x);
  }

  /** Two lines that miss the end points of a chord by gamma, crosswise, meet in its
      middle and open a cone there. */
  lemma CrossedLines(lower: Line, upper: Line, s0: Point, s1: Point, gamma: real)
    requires s0.x < s1.x && gamma > 0.0
    requires At(lower, s0.x) == s0.y + gamma && At(lower, s1.x) == s1.y - gamma
    requires At(upper, s0.x) == s0.y - gamma && At(upper, s1.x) == s1.y + gamma
    ensures lower.a < upper.a && Cone(lower, upper, Middle(s0, s1), [s0, s1], gamma)
  {
    var mid := Middle(s0, s1);
    SteeperSlope(lower, upper, s0.x, s1.x);
    HalfWay(lower, s0.x, s1.x);
    HalfWay(upper, s0.x, s1.x);
    NearAt(lower, mid, s0, gamma);
    NearAt(lower, mid, s1, gamma);
    NearAt(upper, mid, s0, gamma);
    NearAt(upper, mid, s1, gamma);
  }

  /** The first two points open a cone at their midpoint. */
  lemma SetupCone(s0: Point, s1: Point, gamma: real, lower: Line, upper: Line)
    requires s0.x < s1.x && gamma > 0.0
    requires lower == GetLine(UpperBound(s0, gamma), LowerBound(s1, gamma))
    requires upper == GetLine(LowerBound(s0, gamma), UpperBound(s1, gamma))
    ensures lower.a < upper.a && Cone(lower, upper, Middle(s0, s1), [s0, s1], gamma)
  {
    LineThrough(UpperBound(s0, gamma), LowerBound(s1, gamma));
    LineThrough(LowerBound(s0, gamma), UpperBound(s1, gamma));
    CrossedLines(lower, upper, s0, s1, gamma);
  }

  lemma HalfWay(l: Line, x: real, z: real)
    ensures At(l, (x + z) / 2.0) == (At(l, x) + At(l, z)) / 2.0
  {
  }

  lemma OneMeeting(l1: Line, l2: Line, p: Point, q: Point)
    requires l1.a != l2.a
    requires At(l1, p.x) == p.y && At(l2, p.x) == p.y && At(l1, q.x) == q.y && At(l2, q.x) == q.y
    ensures p == q
  {
    assert Mul(p.x, l1.a - l2.a) == l2.b - l1.b;
    assert Mul(q.x, l1.a - l2.a) == l2.b - l1.b;
    Cancel(p.x, q.x, l1.a - l2.a);
  }

  /** The line through sint and a higher point at x has the larger slope. */
  lemma SlopeOrder(l1: Line, l2: Line, s: Point, x: real)
    requires At(l1, s.x) == s.y && At(l2, s.x) == s.y && s.x < x && At(l1, x) < At(l2, x)
    ensures l1.a < l2.a
  {
    FromPoint(l1, s, x);
    FromPoint(l2, s, x);
    MulStrict(l1.a, l2.a, x - s.x);
  }

  lemma NarrowUpper(upper: Line, s: Point, gamma: real, p: Point, upper': Line)
    requires gamma > 0.0 && s.x < p.x && At(upper, s.x) == s.y && IsBelow(p, upper)
    requires upper' == if IsBelow(UpperBound(p, gamma), upper) then GetLine(s, UpperBound(p, gamma)) else upper
    ensures At(upper', s.x) == s.y && p.y < At(upper', p.x) <= p.y + gamma && upper'.a <= upper.a
  {
    LineThrough(s, UpperBound(p, gamma));
    if upper' != upper { SlopeOrder(upper', upper, s, p.x); }
  }

  lemma NarrowLower(lower: Line, s: Point, gamma: real, p: Point, lower': Line)
    requires gamma > 0.0 && s.x < p.x && At(lower, s.x) == s.y && IsAbove(p, lower)
    requires lower' == if IsAbove(LowerBound(p, gamma), lower) then GetLine(s, LowerBound(p, gamma)) else lower
    ensures At(lower', s.x) == s.y && p.y - gamma <= At(lower', p.x) < p.y && lower.a <= lower'.a
  {
    LineThrough(s, LowerBound(p, gamma));
    if lower' != lower { SlopeOrder(lower, lower', s, p.x); }
  }

  lemma NarrowFits(lo: real, m: real, hi: real, s: Point, pts: seq<Point>, p: Point, gamma: real)
    requires lo <= m <= hi && AllNear(lo, s, pts, gamma) && AllNear(hi, s, pts, gamma) && Near(m, s, p, gamma)
    ensures AllNear(m, s, pts + [p], gamma)
  {
    BetweenFits(lo, m, hi, s, pts, gamma);
  }

  /** Narrowing to a point inside the cone keeps every accepted point and takes in the
      new one. */
  lemma Narrow(lower: Line, upper: Line, s: Point, pts: seq<Point>, gamma: real, p: Point, lower': Line, upper': Line)
    requires Cone(lower, upper, s, pts, gamma) && gamma > 0.0 && s.x < p.x
    requires IsAbove(p, lower) && IsBelow(p, upper)
    requires upper' == if IsBelow(UpperBound(p, gamma), upper) then GetLine(s, UpperBound(p, gamma)) else upper
    requires lower' == if IsAbove(LowerBound(p, gamma), lower) then GetLine(s, LowerBound(p, gamma)) else lower
    ensures Cone(lower', upper', s, pts + [p], gamma)
  {
    NarrowUpper(upper, s, gamma, p, upper');
    NarrowLower(lower, s, gamma, p, lower');
    SlopeOrder(lower', upper', s, p.x);
    NarrowCone(lower, upper, s, pts, gamma, p, lower', upper');
  }

  lemma NarrowCone(lower: Line, upper: Line, s: Point, pts: seq<Point>, gamma: real, p: Point, lower': Line, upper': Line)
    requires Cone(lower, upper, s, pts, gamma) && lower.a <= lower'.a < upper'.a <= upper.a
    requires At(lower', s.x) == s.y && p.y - gamma <= At(lower', p.x) < p.y
    requires At(upper', s.x) == s.y && p.y < At(upper', p.x) <= p.y + gamma
    ensures Cone(lower', upper', s, pts + [p], gamma)
  {
    NearAt(lower', s, p, gamma);
    NearAt(upper', s, p, gamma);
    NarrowFits(lower.a, lower'.a, upper.a, s, pts, p, gamma);
    NarrowFits(lower.a, upper'.a, upper.a, s, pts, p, gamma);
  }

  // ----- the cone is all there is -----

  /** No slope outside the cone fits all the points. */
  ghost predicate Tight(lower: Line, upper: Line, s: Point, pts: seq<Point>, gamma: real) {
    forall m :: AllNear(m, s, pts, gamma) ==> lower.a <= m <= upper.a
  }

  /** lo to hi are the slopes through s that are within gamma of every point. */
  ghost predicate FittingSlopes(lo: real, hi: real, s: Point, pts: seq<Point>, gamma: real) {
    forall m :: AllNear(m, s, pts, gamma) <==> lo <= m <= hi
  }

  lemma ConeIsExact(lower: Line, upper: Line, s: Point, pts: seq<Point>, gamma: real)
    requires Cone(lower, upper, s, pts, gamma) && Tight(lower, upper, s, pts, gamma)
    ensures FittingSlopes(lower.a, upper.a, s, pts, gamma)
  {
    forall m | lower.a <= m <= upper.a ensures AllNear(m, s, pts, gamma) {
      ConeFits(lower, upper, s, pts, gamma, m);
    }
  }

  lemma MulLess(a: real, b: real, t: real)
    requires Mul(a, t) <= Mul(b, t) && t > 0.0
    ensures a <= b
  {
    if a > b { Strictly(b, a, t); }
  }

  /** Right of s, a slope that fits p is no larger than that of a line at p.y + gamma ... */
  lemma BelowLine(m: real, l: Line, s: Point, p: Point, gamma: real)
    requires Near(m, s, p, gamma) && s.x < p.x && At(l, s.x) == s.y && At(l, p.x) == p.y + gamma
    ensures m <= l.a
  {
    FromPoint(l, s, p.x);
    MulLess(m, l.a, p.x - s.x);
  }

  /** ... and no smaller than that of a line at p.y - gamma. */
  lemma AboveLine(m: real, l: Line, s: Point, p: Point, gamma: real)
    requires Near(m, s, p, gamma) && s.x < p.x && At(l, s.x) == s.y && At(l, p.x) == p.y - gamma
    ensures l.a <= m
  {
    FromPoint(l, s, p.x);
    MulLess(l.a, m, p.x - s.x);
  }

  lemma SetupTight(s0: Point, s1: Point, gamma: real, lower: Line, upper: Line)
    requires s0.x < s1.x && gamma > 0.0
    requires lower == GetLine(UpperBound(s0, gamma), LowerBound(s1, gamma))
    requires upper == GetLine(LowerBound(s0, gamma), UpperBound(s1, gamma))
    ensures Tight(lower, upper, Middle(s0, s1), [s0, s1], gamma)
  {
    var s := Middle(s0, s1);
    SetupCone(s0, s1, gamma, lower, upper);
    LineThrough(UpperBound(s0, gamma), LowerBound(s1, gamma));
    LineThrough(LowerBound(s0, gamma), UpperBound(s1, gamma));
    forall m | AllNear(m, s, [s0, s1], gamma) ensures lower.a <= m <= upper.a {
      assert Near(m, s, [s0, s1][1], gamma);
      AboveLine(m, lower, s, s1, gamma);
      BelowLine(m, upper, s, s1, gamma);
    }
  }

  lemma NarrowTight(lower: Line, upper: Line, s: Point, pts: seq<Point>, gamma: real, p: Point, lower': Line, upper': Line)
    requires Tight(lower, upper, s, pts, gamma) && s.x < p.x
    requires upper' == upper || upper' == GetLine(s, UpperBound(p, gamma))
    requires lower' == lower || lower' == GetLine(s, LowerBound(p, gamma))
    ensures Tight(lower', upper', s, pts + [p], gamma)
  {
    LineThrough(s, UpperBound(p, gamma));
    LineThrough(s, LowerBound(p, gamma));
    forall m | AllNear(m, s, pts + [p], gamma) ensures lower'.a <= m <= upper'.a {
      assert AllNear(m, s, pts, gamma) by {
        assert forall i :: 0 <= i < |pts| ==> (pts + [p])[i] == pts[i];
      }
      assert Near(m, s, (pts + [p])[|pts|], gamma);
      if upper' != upper { BelowLine(m, upper', s, p, gamma); }
      if lower' != lower { AboveLine(m, lower', s, p, gamma); }
    }
  }

  // ----- when a point goes with those before it -----

  /** The point lies strictly between two lines through s that fit all the points. */
  ghost predicate Joins(s: Point, pts: seq<Point>, p: Point, gamma: real) {
    s.x != p.x && exists lo, hi :: lo < GetSlope(s, p) < hi && AllNear(lo, s, pts, gamma) && AllNear(hi, s, pts, gamma)
  }

  lemma Slopes(l: Line, s: Point, p: Point)
    requires s.x < p.x && At(l, s.x) == s.y
    ensures IsAbove(p, l) <==> l.a < GetSlope(s, p)
    ensures IsBelow(p, l) <==> GetSlope(s, p) < l.a
  {
    FromPoint(l, s, p.x);
    DivMul(p.y - s.y, p.x - s.x);
    var m, t := GetSlope(s, p), p.x - s.x;
    if l.a < m { Strictly(l.a, m, t); }
    if m < l.a { Strictly(m, l.a, t); }
  }

  lemma Strictly(a: real, b: real, t: real)
    requires a < b && t > 0.0
    ensures Mul(a, t) < Mul(b, t)
  {
    var c := b - a;
    assert Mul(b, t) - Mul(a, t) == c * t;
    assert c * t > 0.0;
  }

  /** The test of process__ decides exactly that. */
  lemma JoinsExact(lower: Line, upper: Line, s: Point, pts: seq<Point>, gamma: real, p: Point)
    requires Cone(lower, upper, s, pts, gamma) && Tight(lower, upper, s, pts, gamma) && s.x < p.x
    ensures IsAbove(p, lower) && IsBelow(p, upper) <==> Joins(s, pts, p, gamma)
  {
    Slopes(lower, s, p);
    Slopes(upper, s, p);
  }
}
