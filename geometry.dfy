/**
 * Plane geometry shared by both straightening engines: the direction sign
 * used to orient endpoints, the implicit line through two points, and the
 * foot of the perpendicular dropped from a node onto that line.
 *
 * Coordinates are exact reals; the host works in IEEE-754 doubles.
 */
module Geometry {

  /** A coordinate in the editor's projected space. */
  datatype Point = Point(x: real, y: real)

  /** The implicit line a*x + b*y + c == 0. */
  datatype Line = Line(a: real, b: real, c: real)

  predicate OnLine(l: Line, p: Point) {
    l.a * p.x + l.b * p.y + l.c == 0.0
  }

  function Abs(r: real): real {
    if r < 0.0 then -r else r
  }

  /** The direction from a to b along one axis (getDeltaDirect). */
  function GetDeltaDirect(a: real, b: real): real {
    if a < b then 1.0 else if a > b then -1.0 else 0.0
  }

  /** getDeltaDirect is the sign of b - a: one of 1, -1 and 0, with d * (b - a) == |b - a|, and 0 only when a == b. */
  lemma DeltaDirectIsSign(a: real, b: real)
    ensures var d := GetDeltaDirect(a, b);
      && (d == 1.0 || d == -1.0 || d == 0.0)
      && d * (b - a) == Abs(b - a)
      && (d == 0.0 <==> a == b)
  {
    var d := GetDeltaDirect(a, b);
    if a < b {
      assert d * (b - a) == b - a;
    } else if a > b {
      assert d * (b - a) == -(b - a);
    }
  }

  /** The direction test that decides an endpoint swap fires exactly when the first x is larger. */
  lemma DeltaNegativeIffGreater(a: real, b: real)
    ensures GetDeltaDirect(a, b) < 0.0 <==> a > b
  {
  }

  /** Coefficients of the line through p1 and p2, as both engines compute them. */
  function LineThrough(p1: Point, p2: Point): Line {
    Line(p2.y - p1.y, p1.x - p2.x, p2.x * p1.y - p1.x * p2.y)
  }

  /** The fitted line passes through both points it is computed from. */
  lemma LineThroughPassesThrough(p1: Point, p2: Point)
    ensures OnLine(LineThrough(p1, p2), p1) && OnLine(LineThrough(p1, p2), p2)
  {
    var l := LineThrough(p1, p2);
    assert l.a * p1.x + l.b * p1.y + l.c == 0.0 by {
      assert l.a * p1.x == p2.y * p1.x - p1.y * p1.x;
      assert l.b * p1.y == p1.x * p1.y - p2.x * p1.y;
    }
    assert l.a * p2.x + l.b * p2.y + l.c == 0.0 by {
      assert l.a * p2.x == p2.y * p2.x - p1.y * p2.x;
      assert l.b * p2.y == p1.x * p2.y - p2.x * p2.y;
    }
  }

  /** Two distinct points determine a proper line: a and b are not both zero. */
  lemma LineThroughNonDegenerate(p1: Point, p2: Point)
    requires p1 != p2
    ensures LineThrough(p1, p2).a != 0.0 || LineThrough(p1, p2).b != 0.0
  {
  }

  function Square(r: real): real {
    r * r
  }

  lemma SquareNonNegative(r: real)
    ensures Square(r) >= 0.0
    ensures r != 0.0 ==> Square(r) > 0.0
  {
    if r < 0.0 {
      assert r * r == (-r) * (-r);
    }
    if r != 0.0 && Square(r) == 0.0 {
      CancelNonZero(r, r);
    }
  }

  /** n == a*a + b*b, the divisor of getIntersectCoord, is positive unless a == b == 0. */
  lemma NormPositive(a: real, b: real, n: real)
    requires a != 0.0 || b != 0.0
    requires n == a * a + b * b
    ensures n > 0.0
  {
    SquareNonNegative(a);
    SquareNonNegative(b);
    assert n == Square(a) + Square(b);
  }

  lemma DivisionCancels(t: real, n: real)
    requires n != 0.0
    ensures (t / n) * n == t
  {
  }

  /** A product with a non-zero factor vanishes only when the other factor does. */
  lemma CancelNonZero(k: real, e: real)
    requires k != 0.0
    requires k * e == 0.0
    ensures e == 0.0
  {
  }

  /**
   * The two quotients getIntersectCoord computes solve the system
   * a*x + b*y = -c and b*x - a*y = -d.
   */
  lemma SolvesSystem(a: real, b: real, c: real, d: real, x: real, y: real)
    requires a != b
    requires y * (a * a + b * b) == a * d - c * b
    requires x * (a - b) == -y * (b + a) - c + d
    ensures a * x + b * y + c == 0.0
    ensures b * x - a * y + d == 0.0
  {
    var k := a - b;
    var e1 := a * x + b * y + c;
    var e2 := b * x - a * y + d;
    assert k * e1 == a * (x * k) + (a * b - b * b) * y + k * c;
    assert k * e1 == -(y * (a * a + b * b)) + a * d - c * b;
    CancelNonZero(k, e1);
    assert k * e2 == b * (x * k) - (a * a - a * b) * y + k * d;
    assert k * e2 == -(y * (a * a + b * b)) + a * d - c * b;
    CancelNonZero(k, e2);
  }

  /**
   * Intersection of the line a*x + b*y + c == 0 with its perpendicular
   * b*x - a*y + d == 0 (getIntersectCoord). The source divides by a*a + b*b
   * and by a - b; a != b already rules out a == b == 0.
   */
  function GetIntersectCoord(a: real, b: real, c: real, d: real): Point
    requires a != b
  {
    var n := a * a + b * b;
    NormPositive(a, b, n);
    var y := -1.0 * (c * b - a * d) / n;
    Point((-y * (b + a) - c + d) / (a - b), y)
  }

  /** The point getIntersectCoord returns lies on both lines of the system. */
  lemma IntersectSolvesSystem(a: real, b: real, c: real, d: real)
    requires a != b
    ensures var r := GetIntersectCoord(a, b, c, d);
      a * r.x + b * r.y + c == 0.0 && b * r.x - a * r.y + d == 0.0
  {
    var n := a * a + b * b;
    NormPositive(a, b, n);
    var y := -1.0 * (c * b - a * d) / n;
    DivisionCancels(-1.0 * (c * b - a * d), n);
    var x := (-y * (b + a) - c + d) / (a - b);
    DivisionCancels(-y * (b + a) - c + d, a - b);
    SolvesSystem(a, b, c, d, x, y);
  }

  /** The system solved by getIntersectCoord has exactly one solution. */
  lemma SystemSolutionUnique(a: real, b: real, c: real, d: real, p: Point, q: Point)
    requires a != 0.0 || b != 0.0
    requires a * p.x + b * p.y + c == 0.0 && b * p.x - a * p.y + d == 0.0
    requires a * q.x + b * q.y + c == 0.0 && b * q.x - a * q.y + d == 0.0
    ensures p == q
  {
    var u := p.x - q.x;
    var v := p.y - q.y;
    assert a * u + b * v == 0.0;
    assert b * u - a * v == 0.0;
    var n := a * a + b * b;
    NormPositive(a, b, n);
    assert n * u == a * (a * u + b * v) + b * (b * u - a * v);
    CancelNonZero(n, u);
    assert n * v == b * (a * u + b * v) - a * (b * u - a * v);
    CancelNonZero(n, v);
  }

  /** The perpendicular constant the engines pass for node q: d = q.y*a - q.x*b. */
  function PerpendicularConstant(l: Line, q: Point): real {
    q.y * l.a - q.x * l.b
  }

  /**
   * Where a node at q is moved: the foot of the perpendicular from q onto
   * the fitted line. It lies on the line and q moves along the normal (a, b).
   */
  function Project(l: Line, q: Point): Point
    requires l.a != l.b
  {
    GetIntersectCoord(l.a, l.b, l.c, PerpendicularConstant(l, q))
  }

  /** The projected point lies on the line and on the perpendicular through q. */
  lemma ProjectOnLine(l: Line, q: Point)
    requires l.a != l.b
    ensures OnLine(l, Project(l, q))
    ensures l.b * Project(l, q).x - l.a * Project(l, q).y + PerpendicularConstant(l, q) == 0.0
  {
    IntersectSolvesSystem(l.a, l.b, l.c, PerpendicularConstant(l, q));
  }

  /** The node travels along the normal (a, b) of the line: its displacement is orthogonal to the line's direction. */
  lemma ProjectAlongNormal(l: Line, q: Point)
    requires l.a != l.b
    ensures l.b * (Project(l, q).x - q.x) - l.a * (Project(l, q).y - q.y) == 0.0
  {
    var r := Project(l, q);
    ProjectOnLine(l, q);
    assert l.b * (r.x - q.x) - l.a * (r.y - q.y) == l.b * r.x - l.a * r.y + PerpendicularConstant(l, q);
  }

  /** A node already on the fitted line is returned unchanged. */
  lemma ProjectFixesPointsOnLine(l: Line, q: Point)
    requires l.a != l.b
    requires OnLine(l, q)
    ensures Project(l, q) == q
  {
    var d := PerpendicularConstant(l, q);
    var r := Project(l, q);
    ProjectOnLine(l, q);
    assert l.b * q.x - l.a * q.y + d == 0.0;
    assert l.a * r.x + l.b * r.y + l.c == 0.0;
    assert l.b * r.x - l.a * r.y + d == 0.0;
    SystemSolutionUnique(l.a, l.b, l.c, d, r, q);
  }

  /** Projecting a node a second time does not move it again. */
  lemma ProjectIdempotent(l: Line, q: Point)
    requires l.a != l.b
    ensures Project(l, Project(l, q)) == Project(l, q)
  {
    var r := Project(l, q);
    ProjectOnLine(l, q);
    ProjectFixesPointsOnLine(l, r);
  }

  function SquaredDistance(p: Point, q: Point): real {
    (p.x - q.x) * (p.x - q.x) + (p.y - q.y) * (p.y - q.y)
  }

  /** A vector parallel to the normal (a, b) is orthogonal to one on the line's direction. */
  lemma NormalOrthogonalToDirection(a: real, b: real, u: real, v: real, s: real, t: real)
    requires a != 0.0 || b != 0.0
    requires a * s + b * t == 0.0
    requires b * u - a * v == 0.0
    ensures u * s + v * t == 0.0
  {
    var n := a * a + b * b;
    NormPositive(a, b, n);
    assert n * (u * s + v * t) == (a * u + b * v) * (a * s + b * t) + (b * u - a * v) * (b * s - a * t);
    assert (a * u + b * v) * (a * s + b * t) == 0.0;
    assert (b * u - a * v) * (b * s - a * t) == 0.0;
    CancelNonZero(n, u * s + v * t);
  }

  lemma Pythagoras(u: real, v: real, s: real, t: real)
    requires u * s + v * t == 0.0
    ensures u * u + v * v <= (u + s) * (u + s) + (v + t) * (v + t)
  {
    SquareNonNegative(s);
    SquareNonNegative(t);
    assert (u + s) * (u + s) + (v + t) * (v + t) == u * u + v * v + s * s + t * t + 2.0 * (u * s + v * t);
  }

  /** A point of the line reached from q along the normal is the point of the line nearest to q. */
  lemma NormalFootIsNearest(l: Line, q: Point, r: Point, p: Point)
    requires l.a != 0.0 || l.b != 0.0
    requires OnLine(l, r) && OnLine(l, p)
    requires l.b * (r.x - q.x) - l.a * (r.y - q.y) == 0.0
    ensures SquaredDistance(q, r) <= SquaredDistance(q, p)
  {
    var u, v := q.x - r.x, q.y - r.y;
    var s, t := r.x - p.x, r.y - p.y;
    assert l.b * u - l.a * v == -(l.b * (r.x - q.x) - l.a * (r.y - q.y));
    assert l.a * s + l.b * t == (l.a * r.x + l.b * r.y + l.c) - (l.a * p.x + l.b * p.y + l.c);
    NormalOrthogonalToDirection(l.a, l.b, u, v, s, t);
    Pythagoras(u, v, s, t);
    assert q.x - p.x == u + s && q.y - p.y == v + t;
  }

  /** The projected position is the point of the line nearest to the node. */
  lemma ProjectIsNearest(l: Line, q: Point, p: Point)
    requires l.a != l.b
    requires OnLine(l, p)
    ensures SquaredDistance(q, Project(l, q)) <= SquaredDistance(q, p)
  {
    ProjectAlongNormal(l, q);
    ProjectOnLine(l, q);
    NormalFootIsNearest(l, q, Project(l, q), p);
  }
}
