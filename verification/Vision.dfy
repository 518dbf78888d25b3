/** Line of sight: the segment test of the vision package over exact reals, the same test with
    any other tolerance, and what they mean: with none it is intersection, and the test in use
    is intersection exactly where it agrees with that one. */
module Vision {

  datatype Point = Point(x: real, y: real)

  datatype Segment = Segment(a: Point, b: Point)

  const EPSILON: real := 0.000000001

  function Abs(value: real): real {
    if value < 0.0 then -value else value
  }

  function Min(a: real, b: real): real {
    if a < b then a else b
  }

  function Max(a: real, b: real): real {
    if a > b then a else b
  }

  function Orientation(a: Point, b: Point, c: Point): real {
    (b.x - a.x) * (c.y - a.y) - (b.y - a.y) * (c.x - a.x)
  }

  // The bounding box of the segment from a to b, widened by the tolerance.
  predicate OnSegment(tolerance: real, a: Point, b: Point, c: Point) {
    && c.x <= Max(a.x, b.x) + tolerance && c.x >= Min(a.x, b.x) - tolerance
    && c.y <= Max(a.y, b.y) + tolerance && c.y >= Min(a.y, b.y) - tolerance
  }

  predicate Opposite(tolerance: real, d: real, e: real) {
    (d > tolerance && e < -tolerance) || (d < -tolerance && e > tolerance)
  }

  // The decision taken on the four orientations and the four box tests.
  predicate Decide(tolerance: real, d1: real, d2: real, d3: real, d4: real, on1: bool, on2: bool, on3: bool, on4: bool) {
    || (Opposite(tolerance, d1, d2) && Opposite(tolerance, d3, d4))
    || (Abs(d1) <= tolerance && on1)
    || (Abs(d2) <= tolerance && on2)
    || (Abs(d3) <= tolerance && on3)
    || (Abs(d4) <= tolerance && on4)
  }

  predicate CrossesWithin(tolerance: real, first: Segment, second: Segment) {
    Decide(tolerance,
           Orientation(first.a, first.b, second.a), Orientation(first.a, first.b, second.b),
           Orientation(second.a, second.b, first.a), Orientation(second.a, second.b, first.b),
           OnSegment(tolerance, first.a, first.b, second.a), OnSegment(tolerance, first.a, first.b, second.b),
           OnSegment(tolerance, second.a, second.b, first.a), OnSegment(tolerance, second.a, second.b, first.b))
  }

  predicate Crosses(first: Segment, second: Segment) {
    CrossesWithin(EPSILON, first, second)
  }

  predicate Visible(from: Point, to: Point, blockers: seq<Segment>) {
    forall i :: 0 <= i < |blockers| ==> !Crosses(Segment(from, to), blockers[i])
  }

  predicate VisibleFromAny(viewpoints: seq<Point>, to: Point, blockers: seq<Segment>) {
    |viewpoints| == 0 || exists i :: 0 <= i < |viewpoints| && Visible(viewpoints[i], to, blockers)
  }

  // ----- What the segment test should mean -----

  // The point a fraction t of the way from a to b.
  function Along(a: Point, b: Point, t: real): Point {
    Point(a.x + t * (b.x - a.x), a.y + t * (b.y - a.y))
  }

  ghost predicate LiesOn(p: Point, s: Segment) {
    exists t: real :: 0.0 <= t <= 1.0 && p == Along(s.a, s.b, t)
  }

  ghost predicate SharePoint(first: Segment, second: Segment) {
    exists p: Point :: LiesOn(p, first) && LiesOn(p, second)
  }

  // ----- Where the tolerance cannot be felt -----

  predicate Clear(d: real) {
    d == 0.0 || Abs(d) > EPSILON
  }

  predicate ClearPair(p: Point, q: Point) {
    Clear(p.x - q.x) && Clear(p.y - q.y)
  }

  // The orientations the test takes are zero or beyond the tolerance.
  predicate ClearTurns(s: Segment, p: Point, q: Point) {
    Clear(Orientation(s.a, s.b, p)) && Clear(Orientation(s.a, s.b, q))
  }

  predicate ClearGaps(s: Segment, p: Point) {
    ClearPair(s.a, p) && ClearPair(s.b, p)
  }

  /** Every quantity the test compares against the tolerance is zero or beyond it. */
  predicate Exact(first: Segment, second: Segment) {
    && ClearTurns(first, second.a, second.b) && ClearTurns(second, first.a, first.b)
    && ClearGaps(first, second.a) && ClearGaps(first, second.b)
  }

  predicate IntegerPoint(p: Point) {
    p.x == p.x.Floor as real && p.y == p.y.Floor as real
  }

  predicate IntegerSegment(s: Segment) {
    IntegerPoint(s.a) && IntegerPoint(s.b)
  }

  lemma OrientationIsAnInteger(a: Point, b: Point, c: Point)
    requires IntegerPoint(a) && IntegerPoint(b) && IntegerPoint(c)
    ensures Clear(Orientation(a, b, c))
  {
    var k := (b.x.Floor - a.x.Floor) * (c.y.Floor - a.y.Floor) - (b.y.Floor - a.y.Floor) * (c.x.Floor - a.x.Floor);
    var p, q := b.x.Floor - a.x.Floor, c.y.Floor - a.y.Floor;
    var r, s := b.y.Floor - a.y.Floor, c.x.Floor - a.x.Floor;
    assert p as real == b.x - a.x && q as real == c.y - a.y;
    assert r as real == b.y - a.y && s as real == c.x - a.x;
    ProductCast(p, q);
    ProductCast(r, s);
    assert Orientation(a, b, c) == k as real;
  }

  lemma ProductCast(p: int, q: int)
    ensures (p * q) as real == p as real * q as real
  {
  }

  lemma IntegerTurns(s: Segment, p: Point, q: Point)
    requires IntegerSegment(s) && IntegerPoint(p) && IntegerPoint(q)
    ensures ClearTurns(s, p, q)
  {
    OrientationIsAnInteger(s.a, s.b, p);
    OrientationIsAnInteger(s.a, s.b, q);
  }

  lemma IntegerGap(x: real, y: real)
    requires x == x.Floor as real && y == y.Floor as real
    ensures Clear(x - y)
  {
    var k := x.Floor - y.Floor;
    assert x - y == k as real;
  }

  lemma IntegerGaps(s: Segment, p: Point)
    requires IntegerSegment(s) && IntegerPoint(p)
    ensures ClearGaps(s, p)
  {
    IntegerGap(s.a.x, p.x);
    IntegerGap(s.a.y, p.y);
    IntegerGap(s.b.x, p.x);
    IntegerGap(s.b.y, p.y);
  }

  lemma IntegerSegmentsAreExact(first: Segment, second: Segment)
    requires IntegerSegment(first) && IntegerSegment(second)
    ensures Exact(first, second)
  {
    IntegerTurns(first, second.a, second.b);
    IntegerTurns(second, first.a, first.b);
    IntegerGaps(first, second.a);
    IntegerGaps(first, second.b);
  }

  // ----- Small algebra -----

  // Orientation is affine in its third argument.
  lemma OrientationAlong(a: Point, b: Point, c: Point, d: Point, u: real)
    ensures Orientation(a, b, Along(c, d, u)) == (1.0 - u) * Orientation(a, b, c) + u * Orientation(a, b, d)
  {
  }

  lemma OrientationOnOwnLine(a: Point, b: Point, t: real)
    ensures Orientation(a, b, Along(a, b, t)) == 0.0
  {
  }

  predicate SameTurn(d1: real, d2: real, d3: real, d4: real) {
    d1 - d2 == d4 - d3
  }

  // The blend of x and y at fraction u is zero.
  predicate Vanishes(u: real, x: real, y: real) {
    (1.0 - u) * x + u * y == 0.0
  }

  // Turning from one segment to the other changes both pairs by the same amount.
  lemma OrientationDifference(a: Point, b: Point, c: Point, d: Point)
    ensures SameTurn(Orientation(a, b, c), Orientation(a, b, d), Orientation(c, d, a), Orientation(c, d, b))
  {
  }

  lemma AlongEnds(a: Point, b: Point)
    ensures Along(a, b, 0.0) == a && Along(a, b, 1.0) == b
  {
  }

  lemma ProductSign(x: real, y: real)
    requires 0.0 <= x && 0.0 <= y
    ensures 0.0 <= x * y
  {
  }

  lemma ScaledBetween(lo: real, hi: real, t: real)
    requires 0.0 <= t <= 1.0
    ensures Min(lo, hi) <= lo + t * (hi - lo) <= Max(lo, hi)
  {
    if lo <= hi {
      ProductSign(t, hi - lo);
      ProductSign(1.0 - t, hi - lo);
      assert (1.0 - t) * (hi - lo) == (hi - lo) - t * (hi - lo);
    } else {
      ProductSign(t, lo - hi);
      ProductSign(1.0 - t, lo - hi);
      assert (1.0 - t) * (lo - hi) == (lo - hi) - t * (lo - hi);
      assert t * (hi - lo) == -(t * (lo - hi));
    }
  }

  lemma OnSegmentOfAlong(a: Point, b: Point, t: real)
    requires 0.0 <= t <= 1.0
    ensures OnSegment(0.0, a, b, Along(a, b, t))
  {
    ScaledBetween(a.x, b.x, t);
    ScaledBetween(a.y, b.y, t);
  }

  // ----- From the test to a shared point -----

  // A point on the line and in the box of a segment lies on it.
  lemma BoxedAndCollinear(s: Segment, c: Point)
    requires Orientation(s.a, s.b, c) == 0.0 && OnSegment(0.0, s.a, s.b, c)
    ensures LiesOn(c, s)
  {
    var a, b := s.a, s.b;
    assert (b.x - a.x) * (c.y - a.y) == (b.y - a.y) * (c.x - a.x);
    assert Min(a.x, b.x) <= c.x <= Max(a.x, b.x);
    assert Min(a.y, b.y) <= c.y <= Max(a.y, b.y);
    var t := Fraction(a, b, c);
    assert c == Along(a, b, t);
  }

  lemma Quotient(n: real, d: real)
    requires d != 0.0
    ensures (n / d) * d == n
    ensures (0.0 <= n <= d || d <= n <= 0.0) ==> 0.0 <= n / d <= 1.0
  {
  }

  lemma Fraction(a: Point, b: Point, c: Point) returns (t: real)
    requires (b.x - a.x) * (c.y - a.y) == (b.y - a.y) * (c.x - a.x)
    requires Min(a.x, b.x) <= c.x <= Max(a.x, b.x)
    requires Min(a.y, b.y) <= c.y <= Max(a.y, b.y)
    ensures 0.0 <= t <= 1.0 && c == Along(a, b, t)
  {
    if b.x != a.x {
      t := CommonFraction(b.x - a.x, c.x - a.x, b.y - a.y, c.y - a.y);
    } else if b.y != a.y {
      t := CommonFraction(b.y - a.y, c.y - a.y, b.x - a.x, c.x - a.x);
    } else {
      t := 0.0;
    }
  }

  lemma CommonFraction(r: real, q: real, r': real, q': real) returns (t: real)
    requires r != 0.0 && (0.0 <= q <= r || r <= q <= 0.0)
    requires r * q' == r' * q
    ensures 0.0 <= t <= 1.0 && q == t * r && q' == t * r'
  {
    t := q / r;
    Quotient(q, r);
    assert r * (q' - t * r') == r * q' - r' * (t * r);
    ZeroFactor(r, q' - t * r');
  }

  lemma ZeroFactor(f: real, g: real)
    requires f != 0.0 && f * g == 0.0
    ensures g == 0.0
  {
  }

  // Two strict opposite pairs: the lines meet inside both segments.
  lemma ProperCrossing(first: Segment, second: Segment)
    requires Opposite(0.0, Orientation(first.a, first.b, second.a), Orientation(first.a, first.b, second.b))
    requires Opposite(0.0, Orientation(second.a, second.b, first.a), Orientation(second.a, second.b, first.b))
    ensures SharePoint(first, second)
  {
    var a, b, c, d := first.a, first.b, second.a, second.b;
    var d1, d2 := Orientation(a, b, c), Orientation(a, b, d);
    var d3, d4 := Orientation(c, d, a), Orientation(c, d, b);
    OrientationDifference(a, b, c, d);
    var w := d3 - d4;
    var t, u := d3 / w, -d1 / w;
    assert w == d2 - d1;
    Quotient(d3, w);
    Quotient(-d1, w);
    MeetingPoint(a, b, c, d, t, u, w);
    var p := Along(a, b, t);
    assert LiesOn(p, first);
    assert LiesOn(p, second);
  }

  lemma MeetingPoint(a: Point, b: Point, c: Point, d: Point, t: real, u: real, w: real)
    requires w != 0.0 && w == Orientation(c, d, a) - Orientation(c, d, b)
    requires t * w == Orientation(c, d, a) && u * w == -Orientation(a, b, c)
    ensures Along(a, b, t) == Along(c, d, u)
  {
    var r, v, q := Minus(b, a), Minus(d, c), Minus(a, c);
    assert w == r.x * v.y - r.y * v.x;
    assert t * w == v.x * q.y - v.y * q.x;
    assert u * w == r.x * q.y - r.y * q.x;
    MeetingCoordinate(r.x, r.y, v.x, v.y, q.x, q.y, t, u, w);
    MeetingCoordinate(r.y, r.x, v.y, v.x, q.y, q.x, t, u, -w);
  }

  function Minus(p: Point, q: Point): Point {
    Point(p.x - q.x, p.y - q.y)
  }

  lemma MeetingCoordinate(rx: real, ry: real, vx: real, vy: real, qx: real, qy: real, t: real, u: real, w: real)
    requires w != 0.0 && w == rx * vy - ry * vx
    requires t * w == vx * qy - vy * qx
    requires u * w == rx * qy - ry * qx
    ensures qx + t * rx == u * vx
  {
    var gap := qx + t * rx - u * vx;
    assert gap * w == qx * w + (t * w) * rx - (u * w) * vx;
    assert gap * w == 0.0;
  }

  lemma CrossingSharesAPoint(first: Segment, second: Segment)
    requires CrossesWithin(0.0, first, second)
    ensures SharePoint(first, second)
  {
    AlongEnds(first.a, first.b);
    AlongEnds(second.a, second.b);
    if Orientation(first.a, first.b, second.a) == 0.0 && OnSegment(0.0, first.a, first.b, second.a) {
      BoxedAndCollinear(first, second.a);
    } else if Orientation(first.a, first.b, second.b) == 0.0 && OnSegment(0.0, first.a, first.b, second.b) {
      BoxedAndCollinear(first, second.b);
    } else if Orientation(second.a, second.b, first.a) == 0.0 && OnSegment(0.0, second.a, second.b, first.a) {
      BoxedAndCollinear(second, first.a);
    } else if Orientation(second.a, second.b, first.b) == 0.0 && OnSegment(0.0, second.a, second.b, first.b) {
      BoxedAndCollinear(second, first.b);
    } else {
      ProperCrossing(first, second);
    }
  }

  // ----- From a shared point to the test -----

  lemma Balance(u: real, x: real, y: real)
    requires 0.0 <= u <= 1.0 && Vanishes(u, x, y)
    ensures x == 0.0 && y != 0.0 ==> u == 0.0
    ensures y == 0.0 && x != 0.0 ==> u == 1.0
    ensures (x < 0.0 ==> y >= 0.0) && (x > 0.0 ==> y <= 0.0)
  {
    PositiveBlend(u, x, y);
    PositiveBlend(u, -x, -y);
  }

  lemma PositiveBlend(u: real, x: real, y: real)
    requires 0.0 <= u <= 1.0
    ensures x > 0.0 && y > 0.0 ==> (1.0 - u) * x + u * y > 0.0
  {
    if x > 0.0 && y > 0.0 {
      if u == 0.0 {
      } else {
        assert u * y > 0.0 && (1.0 - u) * x >= 0.0;
      }
    }
  }

  // The orientation of second's ends about first is balanced by the shared point.
  lemma BalancedTurns(a: Point, b: Point, c: Point, d: Point, t: real, u: real)
    requires 0.0 <= u <= 1.0 && Along(a, b, t) == Along(c, d, u)
    ensures Vanishes(u, Orientation(a, b, c), Orientation(a, b, d))
  {
    OrientationOnOwnLine(a, b, t);
    OrientationAlong(a, b, c, d, u);
  }

  // What a meeting at fraction t of first and u of second says of the four orientations.
  predicate Balanced(d1: real, d2: real, d3: real, d4: real, t: real, u: real) {
    SameTurn(d1, d2, d3, d4) && Vanishes(u, d1, d2) && Vanishes(t, d3, d4)
  }

  lemma DecideFromBalance(d1: real, d2: real, d3: real, d4: real,
                          on1: bool, on2: bool, on3: bool, on4: bool, t: real, u: real)
    requires Balanced(d1, d2, d3, d4, t, u)
    requires 0.0 <= t <= 1.0 && 0.0 <= u <= 1.0
    requires (u == 0.0 ==> on1) && (u == 1.0 ==> on2) && (t == 0.0 ==> on3) && (t == 1.0 ==> on4)
    requires d1 == 0.0 && d2 == 0.0 ==> on1 || on2 || on3
    ensures Decide(0.0, d1, d2, d3, d4, on1, on2, on3, on4)
  {
    Balance(u, d1, d2);
    Balance(t, d3, d4);
  }

  lemma MeetingTurns(first: Segment, second: Segment, t: real, u: real)
    requires 0.0 <= t <= 1.0 && 0.0 <= u <= 1.0
    requires Along(first.a, first.b, t) == Along(second.a, second.b, u)
    ensures Balanced(Orientation(first.a, first.b, second.a), Orientation(first.a, first.b, second.b),
                     Orientation(second.a, second.b, first.a), Orientation(second.a, second.b, first.b), t, u)
  {
    BalancedTurns(first.a, first.b, second.a, second.b, t, u);
    BalancedTurns(second.a, second.b, first.a, first.b, u, t);
    OrientationDifference(first.a, first.b, second.a, second.b);
  }

  lemma SharedFractions(first: Segment, second: Segment) returns (t: real, u: real)
    requires SharePoint(first, second)
    ensures 0.0 <= t <= 1.0 && 0.0 <= u <= 1.0
    ensures Along(first.a, first.b, t) == Along(second.a, second.b, u)
  {
    var p :| LiesOn(p, first) && LiesOn(p, second);
    t :| 0.0 <= t <= 1.0 && p == Along(first.a, first.b, t);
    u :| 0.0 <= u <= 1.0 && p == Along(second.a, second.b, u);
  }

  lemma SharedPointCrosses(first: Segment, second: Segment)
    requires SharePoint(first, second)
    ensures CrossesWithin(0.0, first, second)
  {
    var t, u := SharedFractions(first, second);
    MeetingCrosses(first, second, t, u);
  }

  lemma MeetingCrosses(first: Segment, second: Segment, t: real, u: real)
    requires 0.0 <= t <= 1.0 && 0.0 <= u <= 1.0
    requires Along(first.a, first.b, t) == Along(second.a, second.b, u)
    ensures CrossesWithin(0.0, first, second)
  {
    MeetingTurns(first, second, t, u);
    MeetingDecides(first.a, first.b, second.a, second.b, t, u,
                   Orientation(first.a, first.b, second.a), Orientation(first.a, first.b, second.b),
                   Orientation(second.a, second.b, first.a), Orientation(second.a, second.b, first.b));
  }

  lemma MeetingDecides(a: Point, b: Point, c: Point, d: Point, t: real, u: real,
                       d1: real, d2: real, d3: real, d4: real)
    requires 0.0 <= t <= 1.0 && 0.0 <= u <= 1.0 && Along(a, b, t) == Along(c, d, u)
    requires Balanced(d1, d2, d3, d4, t, u)
    requires d1 == Orientation(a, b, c) && d2 == Orientation(a, b, d)
    ensures Decide(0.0, d1, d2, d3, d4, OnSegment(0.0, a, b, c), OnSegment(0.0, a, b, d), OnSegment(0.0, c, d, a), OnSegment(0.0, c, d, b))
  {
    EndsInside(a, b, c, d, t, u);
    if d1 == 0.0 && d2 == 0.0 {
      CollinearOverlap(a, b, c, d, t, u);
    }
    DecideFromBalance(d1, d2, d3, d4, OnSegment(0.0, a, b, c), OnSegment(0.0, a, b, d),
                      OnSegment(0.0, c, d, a), OnSegment(0.0, c, d, b), t, u);
  }

  // A shared point that is an end of one segment is inside the box of the other.
  lemma EndsInside(a: Point, b: Point, c: Point, d: Point, t: real, u: real)
    requires 0.0 <= t <= 1.0 && 0.0 <= u <= 1.0 && Along(a, b, t) == Along(c, d, u)
    ensures (u == 0.0 ==> OnSegment(0.0, a, b, c)) && (u == 1.0 ==> OnSegment(0.0, a, b, d))
    ensures (t == 0.0 ==> OnSegment(0.0, c, d, a)) && (t == 1.0 ==> OnSegment(0.0, c, d, b))
  {
    AlongEnds(a, b);
    AlongEnds(c, d);
    OnSegmentOfAlong(a, b, t);
    OnSegmentOfAlong(c, d, u);
  }

  // Collinear segments that meet have an end of one inside the other.
  lemma CollinearOverlap(a: Point, b: Point, c: Point, d: Point, t: real, u: real)
    requires 0.0 <= t <= 1.0 && 0.0 <= u <= 1.0 && Along(a, b, t) == Along(c, d, u)
    requires Orientation(a, b, c) == 0.0 && Orientation(a, b, d) == 0.0
    ensures OnSegment(0.0, a, b, c) || OnSegment(0.0, a, b, d) || OnSegment(0.0, c, d, a)
  {
    if a == b {
      assert Along(a, b, t) == a;
      OnSegmentOfAlong(c, d, u);
    } else {
      var g := OnTheLine(a, b, c);
      var h := OnTheLine(a, b, d);
      AlongAlong(a, b, g, h, u);
      AlongInjective(a, b, t, g + u * (h - g));
      ScaledBetween(g, h, u);
      if 0.0 <= g <= 1.0 {
        OnSegmentOfAlong(a, b, g);
      } else if 0.0 <= h <= 1.0 {
        OnSegmentOfAlong(a, b, h);
      } else {
        var back := -g / (h - g);
        Quotient(-g, h - g);
        assert g + back * (h - g) == 0.0;
        AlongAlong(a, b, g, h, back);
        AlongEnds(a, b);
        OnSegmentOfAlong(c, d, back);
      }
    }
  }

  lemma OnTheLine(a: Point, b: Point, c: Point) returns (g: real)
    requires a != b && Orientation(a, b, c) == 0.0
    ensures c == Along(a, b, g)
  {
    if b.x != a.x {
      g := Ratio(b.x - a.x, c.x - a.x, b.y - a.y, c.y - a.y);
    } else {
      g := Ratio(b.y - a.y, c.y - a.y, b.x - a.x, c.x - a.x);
    }
  }

  lemma Ratio(r: real, q: real, r': real, q': real) returns (t: real)
    requires r != 0.0 && r * q' == r' * q
    ensures q == t * r && q' == t * r'
  {
    t := q / r;
    Quotient(q, r);
    assert r * (q' - t * r') == r * q' - r' * (t * r);
    ZeroFactor(r, q' - t * r');
  }

  lemma AlongAlong(a: Point, b: Point, g: real, h: real, u: real)
    ensures Along(Along(a, b, g), Along(a, b, h), u) == Along(a, b, g + u * (h - g))
  {
    BlendOfBlends(a.x, b.x - a.x, g, h, u);
    BlendOfBlends(a.y, b.y - a.y, g, h, u);
  }

  lemma BlendOfBlends(o: real, r: real, g: real, h: real, u: real)
    ensures (o + g * r) + u * ((o + h * r) - (o + g * r)) == o + (g + u * (h - g)) * r
  {
  }

  lemma AlongInjective(a: Point, b: Point, s: real, t: real)
    requires a != b && Along(a, b, s) == Along(a, b, t)
    ensures s == t
  {
    if a.x != b.x {
      ZeroFactor(b.x - a.x, s - t);
    } else {
      ZeroFactor(b.y - a.y, s - t);
    }
  }

  // ----- Main results -----

  /** Without a tolerance the test is true exactly when the two closed segments have a point in
      common, for all real segments: crossing, touching, collinear or degenerate. */
  lemma SharpTestIsIntersection(first: Segment, second: Segment)
    ensures CrossesWithin(0.0, first, second) <==> SharePoint(first, second)
  {
    if CrossesWithin(0.0, first, second) {
      CrossingSharesAPoint(first, second);
    }
    if SharePoint(first, second) {
      SharedPointCrosses(first, second);
    }
  }

  /** The test in use is right about two segments if and only if dropping the tolerance would
      not change its answer. */
  lemma RightExactlyWhenSharp(first: Segment, second: Segment)
    ensures (Crosses(first, second) <==> SharePoint(first, second))
            <==> (Crosses(first, second) <==> CrossesWithin(0.0, first, second))
  {
    SharpTestIsIntersection(first, second);
  }

  // A box test decides the same with and without the tolerance when no gap is within it.
  lemma SameBox(s: Segment, c: Point)
    requires ClearGaps(s, c)
    ensures OnSegment(EPSILON, s.a, s.b, c) == OnSegment(0.0, s.a, s.b, c)
  {
  }

  lemma SameDecision(d1: real, d2: real, d3: real, d4: real, on1: bool, on2: bool, on3: bool, on4: bool)
    requires Clear(d1) && Clear(d2) && Clear(d3) && Clear(d4)
    ensures Decide(EPSILON, d1, d2, d3, d4, on1, on2, on3, on4) == Decide(0.0, d1, d2, d3, d4, on1, on2, on3, on4)
  {
  }

  /** Wherever every quantity compared is zero or beyond the tolerance, the test in use is
      intersection. */
  lemma CrossesIsIntersection(first: Segment, second: Segment)
    requires Exact(first, second)
    ensures Crosses(first, second) <==> SharePoint(first, second)
  {
    SameBox(first, second.a);
    SameBox(first, second.b);
    SameBox(second, first.a);
    SameBox(second, first.b);
    SameDecision(Orientation(first.a, first.b, second.a), Orientation(first.a, first.b, second.b),
                 Orientation(second.a, second.b, first.a), Orientation(second.a, second.b, first.b),
                 OnSegment(0.0, first.a, first.b, second.a), OnSegment(0.0, first.a, first.b, second.b),
                 OnSegment(0.0, second.a, second.b, first.a), OnSegment(0.0, second.a, second.b, first.b));
    RightExactlyWhenSharp(first, second);
  }

  lemma CrossesOnTheGrid(first: Segment, second: Segment)
    requires IntegerSegment(first) && IntegerSegment(second)
    ensures Crosses(first, second) <==> SharePoint(first, second)
  {
    IntegerSegmentsAreExact(first, second);
    CrossesIsIntersection(first, second);
  }

  /** On a grid, sight is open exactly when no wall meets the closed line of sight. */
  lemma VisibleOnTheGrid(from: Point, to: Point, blockers: seq<Segment>)
    requires IntegerPoint(from) && IntegerPoint(to)
    requires forall i :: 0 <= i < |blockers| ==> IntegerSegment(blockers[i])
    ensures Visible(from, to, blockers) <==>
            forall i :: 0 <= i < |blockers| ==> !SharePoint(Segment(from, to), blockers[i])
  {
    forall i | 0 <= i < |blockers|
      ensures Crosses(Segment(from, to), blockers[i]) <==> SharePoint(Segment(from, to), blockers[i])
    {
      CrossesOnTheGrid(Segment(from, to), blockers[i]);
    }
  }

  /** Sight is open exactly when no wall meets the closed line of sight, as long as the test is
      right about each wall. */
  lemma VisibleWhereRight(from: Point, to: Point, blockers: seq<Segment>)
    requires forall i :: 0 <= i < |blockers| ==>
               (Crosses(Segment(from, to), blockers[i]) <==> CrossesWithin(0.0, Segment(from, to), blockers[i]))
    ensures Visible(from, to, blockers) <==>
            forall i :: 0 <= i < |blockers| ==> !SharePoint(Segment(from, to), blockers[i])
  {
    forall i | 0 <= i < |blockers|
      ensures Crosses(Segment(from, to), blockers[i]) <==> SharePoint(Segment(from, to), blockers[i])
    {
      RightExactlyWhenSharp(Segment(from, to), blockers[i]);
    }
  }

  // The line of sight meets no blocker.
  ghost predicate Open(from: Point, to: Point, blockers: seq<Segment>) {
    forall i :: 0 <= i < |blockers| ==> !SharePoint(Segment(from, to), blockers[i])
  }

  /** On a grid a point can be seen exactly when there is no viewpoint at all, or one of them has
      a closed line of sight to it that meets no wall. */
  lemma VisibleFromAnyOnTheGrid(viewpoints: seq<Point>, to: Point, blockers: seq<Segment>)
    requires IntegerPoint(to)
    requires forall i :: 0 <= i < |viewpoints| ==> IntegerPoint(viewpoints[i])
    requires forall i :: 0 <= i < |blockers| ==> IntegerSegment(blockers[i])
    ensures VisibleFromAny(viewpoints, to, blockers) <==>
            viewpoints == [] || exists i :: 0 <= i < |viewpoints| && Open(viewpoints[i], to, blockers)
  {
    forall i | 0 <= i < |viewpoints|
      ensures Visible(viewpoints[i], to, blockers) <==> Open(viewpoints[i], to, blockers)
    {
      VisibleOnTheGrid(viewpoints[i], to, blockers);
    }
  }

  /** More viewpoints never hide what some viewpoint already sees. */
  lemma MoreViewpointsSeeMore(fewer: seq<Point>, more: seq<Point>, to: Point, blockers: seq<Segment>)
    requires fewer != [] && (forall i :: 0 <= i < |fewer| ==> fewer[i] in more)
    requires VisibleFromAny(fewer, to, blockers)
    ensures VisibleFromAny(more, to, blockers)
  {
    var i :| 0 <= i < |fewer| && Visible(fewer[i], to, blockers);
    var j :| 0 <= j < |more| && more[j] == fewer[i];
  }

  lemma OrientationReversed(a: Point, b: Point, c: Point)
    ensures Orientation(b, a, c) == -Orientation(a, b, c)
  {
  }

  // Reversing the line of sight changes nothing, tolerance included.
  lemma CrossesReversed(first: Segment, second: Segment)
    ensures Crosses(Segment(first.b, first.a), second) == Crosses(first, second)
  {
    OrientationReversed(first.a, first.b, second.a);
    OrientationReversed(first.a, first.b, second.b);
  }

  lemma VisibleIsSymmetric(p: Point, q: Point, blockers: seq<Segment>)
    ensures Visible(p, q, blockers) == Visible(q, p, blockers)
  {
    forall i | 0 <= i < |blockers|
      ensures Crosses(Segment(p, q), blockers[i]) == Crosses(Segment(q, p), blockers[i])
    {
      CrossesReversed(Segment(p, q), blockers[i]);
    }
  }

  /** Below the tolerance the test can join two segments that never meet. */
  lemma ToleranceCanInvent(low: Segment, high: Segment)
    requires low == Segment(Point(0.0, 0.0), Point(1.0, 0.0))
    requires high == Segment(Point(0.0, 0.0000000005), Point(1.0, 0.0000000005))
    ensures Crosses(low, high) && !SharePoint(low, high)
  {
    assert Orientation(low.a, low.b, high.a) == 0.0000000005;
    assert OnSegment(EPSILON, low.a, low.b, high.a);
    forall p | LiesOn(p, low)
      ensures p.y == 0.0
    {
    }
    forall p | LiesOn(p, high)
      ensures p.y == 0.0000000005
    {
    }
  }

  // Orientations beyond the tolerance on one side only do not cross.
  lemma NoDecision(d1: real, d2: real, d3: real, d4: real, on2: bool, on3: bool, on4: bool)
    requires 0.0 <= d1 <= EPSILON && d2 < -EPSILON && d3 < -EPSILON && d4 > EPSILON
    ensures !Decide(EPSILON, d1, d2, d3, d4, false, on2, on3, on4)
  {
  }

  lemma NotCrossed(first: Segment, second: Segment)
    requires 0.0 <= Orientation(first.a, first.b, second.a) <= EPSILON && !OnSegment(EPSILON, first.a, first.b, second.a)
    requires Orientation(first.a, first.b, second.b) < -EPSILON
    requires Orientation(second.a, second.b, first.a) < -EPSILON && Orientation(second.a, second.b, first.b) > EPSILON
    ensures !Crosses(first, second)
  {
    NoDecision(Orientation(first.a, first.b, second.a), Orientation(first.a, first.b, second.b),
               Orientation(second.a, second.b, first.a), Orientation(second.a, second.b, first.b),
               OnSegment(EPSILON, first.a, first.b, second.b),
               OnSegment(EPSILON, second.a, second.b, first.a), OnSegment(EPSILON, second.a, second.b, first.b));
  }

  lemma SpeckIsCrossed(speck: Segment, line: Segment)
    requires speck == Segment(Point(0.0, 0.0), Point(0.000000001, 0.0))
    requires line == Segment(Point(0.0000000005, 1.0), Point(0.0000000005, -3.0))
    ensures SharePoint(speck, line)
  {
    var p := Point(0.0000000005, 0.0);
    assert p == Along(speck.a, speck.b, 0.5);
    assert p == Along(line.a, line.b, 0.25);
    assert LiesOn(p, speck) && LiesOn(p, line);
  }

  lemma SpeckTurns(speck: Segment, line: Segment)
    requires speck == Segment(Point(0.0, 0.0), Point(0.000000001, 0.0))
    requires line == Segment(Point(0.0000000005, 1.0), Point(0.0000000005, -3.0))
    ensures Orientation(speck.a, speck.b, line.a) == 0.000000001
    ensures Orientation(speck.a, speck.b, line.b) == -0.000000003
    ensures Orientation(line.a, line.b, speck.a) == -0.000000002
    ensures Orientation(line.a, line.b, speck.b) == 0.000000002
    ensures !OnSegment(EPSILON, speck.a, speck.b, line.a)
  {
  }

  /** And it can miss a crossing with a wall shorter than the tolerance. */
  lemma ToleranceCanMiss(speck: Segment, line: Segment)
    requires speck == Segment(Point(0.0, 0.0), Point(0.000000001, 0.0))
    requires line == Segment(Point(0.0000000005, 1.0), Point(0.0000000005, -3.0))
    ensures !Crosses(speck, line) && SharePoint(speck, line)
  {
    SpeckIsCrossed(speck, line);
    SpeckTurns(speck, line);
    NotCrossed(speck, line);
  }
}
