/** The collision test between a rigid body and an axis-aligned rectangle (physics/Collision.java).
    The rasterisation of the body into the intersection image is an input: `Painting` says which
    world pixels the body's drawing covers. */
module Collision {
  import opened Vectors
  import opened Shape

  /** java.awt.Rectangle: top-left corner (x, y), width and height. */
  datatype Rect = Rect(x: int, y: int, width: int, height: int)

  /** What checkCollision reads of a body: whether it is empty, its squared collision radius,
      its position, velocity and angular velocity. */
  datatype BodyState = BodyState(empty: bool, radiusSq: real, pos: Vec, vel: Vec, angularVel: real)

  /** A Collision object: the contact point, the normal and the overlap along the normal. */
  datatype Contact = Contact(point: Vec, normal: Vec, overlap: real)

  /** An integer box with inclusive bounds L..R by U..D. */
  datatype Box = Box(left: int, up: int, right: int, down: int)

  /** The body's drawing in world coordinates: true where the intersection image is not white. */
  type Painting = (int, int) -> bool

  function Larger(a: int, b: int): (r: int)
    ensures r >= a && r >= b && (r == a || r == b)
  {
    if a >= b then a else b
  }

  function Smaller(a: int, b: int): (r: int)
    ensures r <= a && r <= b && (r == a || r == b)
  {
    if a <= b then a else b
  }

  /** Java's integer division, which rounds toward zero. */
  function JavaDiv(a: int, b: int): (q: int)
    requires b != 0
    ensures a >= 0 && b > 0 ==> q == a / b
    ensures 0 <= a < b ==> q == 0
  {
    if (a >= 0) == (b > 0) then (if a >= 0 then a / b else (-a) / (-b))
    else -(if a >= 0 then a / (-b) else (-a) / b)
  }

  // ---- Broad phase

  /** The square of half-side (int) collisionRadius + 5 around the truncated position. */
  function Square(b: BodyState): (s: Box)
    requires b.radiusSq >= 0.0
    ensures s.right - s.left == 2 * (FloorSqrt(b.radiusSq) + 5) == s.down - s.up
    ensures s.left + s.right == 2 * Trunc(b.pos.x) && s.up + s.down == 2 * Trunc(b.pos.y)
  {
    var radius := FloorSqrt(b.radiusSq) + 5;
    var L := Trunc(b.pos.x) - radius;
    var U := Trunc(b.pos.y) - radius;
    Box(L, U, L + radius * 2, U + radius * 2)
  }

  /** The square overlaps the rectangle strictly: touching edges do not count. */
  predicate Overlaps(s: Box, rect: Rect) {
    !(s.down <= rect.y || s.up >= rect.y + rect.height || s.right <= rect.x || s.left >= rect.x + rect.width)
  }

  /** The window tested pixel by pixel: the square clipped to the rectangle's edges. */
  function Window(s: Box, rect: Rect): (win: Box)
    ensures s.left <= win.left && rect.x <= win.left && win.right <= s.right && win.right <= rect.x + rect.width
    ensures s.up <= win.up && rect.y <= win.up && win.down <= s.down && win.down <= rect.y + rect.height
  {
    Box(Larger(s.left, rect.x), Larger(s.up, rect.y),
        Smaller(s.right, rect.x + rect.width), Smaller(s.down, rect.y + rect.height))
  }

  predicate NonEmpty(b: Box) {
    b.left <= b.right && b.up <= b.down
  }

  /** When the square strictly overlaps a rectangle of positive size the window holds a pixel,
      so the intersection image has a positive size. */
  lemma WindowNonEmpty(s: Box, rect: Rect)
    requires Overlaps(s, rect) && rect.width > 0 && rect.height > 0
    requires s.left < s.right && s.up < s.down
    ensures NonEmpty(Window(s, rect))
  {
  }

  // ---- Pixel collection

  predicate InBox(b: Box, x: int, y: int) {
    b.left <= x <= b.right && b.up <= y <= b.down
  }

  /** The pixels (x, y) with up <= y < up + m that the drawing covers, in the order the loop
      visits them. */
  function ColumnHits(painted: Painting, x: int, up: int, m: nat): seq<Vec> {
    if m == 0 then []
    else
      ColumnHits(painted, x, up, m - 1) +
      (if painted(x, up + m - 1) then [FromPixel(Pixel(x, up + m - 1))] else [])
  }

  /** The covered pixels of the window's first k columns, column by column. */
  function HitsUpTo(painted: Painting, win: Box, k: nat): seq<Vec>
    requires win.up <= win.down
  {
    if k == 0 then []
    else HitsUpTo(painted, win, k - 1) + ColumnHits(painted, win.left + k - 1, win.up, win.down - win.up + 1)
  }

  /** colPoints: every covered pixel of the window, x outer and y inner. */
  function Hits(painted: Painting, win: Box): seq<Vec>
    requires NonEmpty(win)
  {
    HitsUpTo(painted, win, win.right - win.left + 1)
  }

  /** The hit is pixel (x, y) of the window, drawn by the body. */
  predicate HitAt(painted: Painting, win: Box, v: Vec, x: int, y: int) {
    InBox(win, x, y) && painted(x, y) && v == FromPixel(Pixel(x, y))
  }

  lemma {:induction false} ColumnHitsAre(painted: Painting, win: Box, x: int, m: nat)
    requires win.left <= x <= win.right && win.up + m - 1 <= win.down
    ensures forall v :: v in ColumnHits(painted, x, win.up, m) ==>
      exists y :: win.up <= y < win.up + m && HitAt(painted, win, v, x, y)
    ensures forall y :: win.up <= y < win.up + m && painted(x, y) ==>
      FromPixel(Pixel(x, y)) in ColumnHits(painted, x, win.up, m)
  {
    if m > 0 {
      ColumnHitsAre(painted, win, x, m - 1);
      var y := win.up + m - 1;
      if painted(x, y) {
        assert HitAt(painted, win, FromPixel(Pixel(x, y)), x, y);
      }
    }
  }

  lemma {:induction false} HitsUpToAre(painted: Painting, win: Box, k: nat)
    requires win.left + k - 1 <= win.right && win.up <= win.down
    ensures forall v :: v in HitsUpTo(painted, win, k) ==>
      exists x, y :: win.left <= x < win.left + k && HitAt(painted, win, v, x, y)
    ensures forall x, y :: win.left <= x < win.left + k && InBox(win, x, y) && painted(x, y) ==>
      FromPixel(Pixel(x, y)) in HitsUpTo(painted, win, k)
  {
    if k > 0 {
      HitsUpToAre(painted, win, k - 1);
      ColumnHitsAre(painted, win, win.left + k - 1, win.down - win.up + 1);
    }
  }

  /** The collected points are exactly the window's pixels that the drawing covers. */
  lemma HitsArePaintedPixels(painted: Painting, win: Box)
    requires NonEmpty(win)
    ensures forall v :: v in Hits(painted, win) ==> exists x, y :: HitAt(painted, win, v, x, y)
    ensures forall x, y :: InBox(win, x, y) && painted(x, y) ==> FromPixel(Pixel(x, y)) in Hits(painted, win)
  {
    HitsUpToAre(painted, win, win.right - win.left + 1);
  }

  /** The loop that reads the intersection image back into colPoints. */
  method CollectHits(painted: Painting, win: Box) returns (colPoints: seq<Vec>)
    requires NonEmpty(win)
    ensures colPoints == Hits(painted, win)
  {
    var width := win.right - win.left + 1;
    var height := win.down - win.up + 1;
    colPoints := [];
    for i := 0 to width
      invariant colPoints == HitsUpTo(painted, win, i)
    {
      for j := 0 to height
        invariant colPoints == HitsUpTo(painted, win, i) + ColumnHits(painted, i + win.left, win.up, j)
      {
        if painted(i + win.left, j + win.up) {
          colPoints := colPoints + [FromPixel(Pixel(i + win.left, j + win.up))];
        }
      }
    }
  }

  // ---- The contact point

  function Sum(points: seq<Vec>): Vec {
    if points == [] then Zero else Plus(Sum(points[..|points| - 1]), points[|points| - 1])
  }

  function Mean(points: seq<Vec>): Vec
    requires |points| > 0
  {
    Quotient(Sum(points), |points| as real)
  }

  /** avgPoint: the running sum of the points divided by their number. */
  method AvgPoint(points: seq<Vec>) returns (r: Vec)
    requires |points| > 0
    ensures r == Mean(points)
  {
    var sum := Zero;
    for k := 0 to |points|
      invariant sum == Sum(points[..k])
    {
      assert points[..k + 1][..k] == points[..k];
      sum := Plus(sum, points[k]);
    }
    assert points[..|points|] == points;
    r := Quotient(sum, |points| as real);
  }

  /** n * a, written as a sum of n copies of a. */
  function Times(n: nat, a: real): real {
    if n == 0 then 0.0 else Times(n - 1, a) + a
  }

  lemma {:induction false} TimesIsProduct(n: nat, a: real)
    ensures Times(n, a) == n as real * a
  {
    if n > 0 {
      TimesIsProduct(n - 1, a);
      assert (n - 1) as real * a + a == n as real * a;
    }
  }

  lemma {:induction false} SumWithin(points: seq<Vec>, b: Box)
    requires forall k :: 0 <= k < |points| ==> b.left as real <= points[k].x <= b.right as real
    requires forall k :: 0 <= k < |points| ==> b.up as real <= points[k].y <= b.down as real
    ensures Times(|points|, b.left as real) <= Sum(points).x <= Times(|points|, b.right as real)
    ensures Times(|points|, b.up as real) <= Sum(points).y <= Times(|points|, b.down as real)
  {
    if points != [] {
      var init := points[..|points| - 1];
      forall k | 0 <= k < |init|
        ensures init[k] == points[k]
      {
      }
      SumWithin(init, b);
    }
  }

  lemma MulLeq(x: real, y: real, n: real)
    requires n > 0.0 && x * n <= y * n
    ensures x <= y
  {
    assert (y - x) * n == y * n - x * n;
  }

  lemma QuotientWithin(s: real, n: real, a: real, b: real)
    requires n > 0.0 && n * a <= s <= n * b
    ensures a <= s / n <= b
  {
    var q := s / n;
    assert q * n == s;
    MulLeq(a, q, n);
    MulLeq(q, b, n);
  }

  /** A sum of count values each within [lo, hi], divided by count, lies within [lo, hi]. */
  lemma AxisMeanWithin(sum: real, count: nat, lo: real, hi: real)
    requires count > 0 && Times(count, lo) <= sum <= Times(count, hi)
    ensures lo <= sum / count as real <= hi
  {
    TimesIsProduct(count, lo);
    TimesIsProduct(count, hi);
    QuotientWithin(sum, count as real, lo, hi);
  }

  /** The mean of points inside a box lies inside the box. */
  lemma MeanWithin(points: seq<Vec>, b: Box)
    requires |points| > 0
    requires forall k :: 0 <= k < |points| ==> b.left as real <= points[k].x <= b.right as real
    requires forall k :: 0 <= k < |points| ==> b.up as real <= points[k].y <= b.down as real
    ensures b.left as real <= Mean(points).x <= b.right as real
    ensures b.up as real <= Mean(points).y <= b.down as real
  {
    SumWithin(points, b);
    AxisMeanWithin(Sum(points).x, |points|, b.left as real, b.right as real);
    AxisMeanWithin(Sum(points).y, |points|, b.up as real, b.down as real);
  }

  // ---- The normal

  /** The normal: compare the slope dy/dx of the offset from the centre (x + w/2, y + h/2) with the
      integer quotient h/w. dx == 0 gives an infinite or NaN slope, which compares false. */
  function Normal(point: Vec, rect: Rect): Vec
    requires rect.width != 0
  {
    var dx := point.x - rect.x as real - JavaDiv(rect.width, 2) as real;
    var dy := point.y - rect.y as real - JavaDiv(rect.height, 2) as real;
    if dx != 0.0 && Abs(dy / dx) < JavaDiv(rect.height, rect.width) as real then
      (if dx > 0.0 then Vec(1.0, 0.0) else Vec(-1.0, 0.0))
    else
      (if dy > 0.0 then Vec(0.0, 1.0) else Vec(0.0, -1.0))
  }

  predicate IsAxis(n: Vec) {
    n == Vec(1.0, 0.0) || n == Vec(-1.0, 0.0) || n == Vec(0.0, 1.0) || n == Vec(0.0, -1.0)
  }

  /** The normal is a unit vector along an axis, pointing from the rectangle's centre towards the
      point along the axis it picks; a rectangle lower than it is wide always gets a vertical one. */
  lemma NormalProperties(point: Vec, rect: Rect)
    requires rect.width != 0
    ensures IsAxis(Normal(point, rect)) && LengthSquare(Normal(point, rect)) == 1.0
    ensures 0 <= rect.height < rect.width ==> Normal(point, rect).x == 0.0
    ensures Normal(point, rect).x > 0.0 ==> point.x > rect.x as real + JavaDiv(rect.width, 2) as real
    ensures Normal(point, rect).y > 0.0 ==> point.y > rect.y as real + JavaDiv(rect.height, 2) as real
  {
  }

  // ---- The overlap

  function RealMax(a: real, b: real): real {
    if a >= b then a else b
  }

  function RealMin(a: real, b: real): real {
    if a <= b then a else b
  }

  function MaxDot(points: seq<Vec>, n: Vec): real
    requires |points| > 0
  {
    if |points| == 1 then Dot(points[0], n)
    else RealMax(Dot(points[|points| - 1], n), MaxDot(points[..|points| - 1], n))
  }

  function MinDot(points: seq<Vec>, n: Vec): real
    requires |points| > 0
  {
    if |points| == 1 then Dot(points[0], n)
    else RealMin(Dot(points[|points| - 1], n), MinDot(points[..|points| - 1], n))
  }

  /** MaxDot and MinDot are the largest and the smallest projection on n. */
  lemma {:induction false} DotExtremes(points: seq<Vec>, n: Vec)
    requires |points| > 0
    ensures forall k :: 0 <= k < |points| ==> MinDot(points, n) <= Dot(points[k], n) <= MaxDot(points, n)
    ensures exists k :: 0 <= k < |points| && Dot(points[k], n) == MaxDot(points, n)
    ensures exists k :: 0 <= k < |points| && Dot(points[k], n) == MinDot(points, n)
  {
    if |points| > 1 {
      var init := points[..|points| - 1];
      DotExtremes(init, n);
      var a :| 0 <= a < |init| && Dot(init[a], n) == MaxDot(init, n);
      var b :| 0 <= b < |init| && Dot(init[b], n) == MinDot(init, n);
      assert points[a] == init[a] && points[b] == init[b];
      forall k | 0 <= k < |points| - 1
        ensures points[k] == init[k]
      {
      }
    }
  }

  /** The loop over colPoints that tracks dotMax and dotMin; the overlap is their difference. */
  method Overlap(points: seq<Vec>, normal: Vec) returns (overlap: real)
    requires |points| > 0
    ensures overlap == MaxDot(points, normal) - MinDot(points, normal)
  {
    var dotMax := Dot(points[0], normal);
    var dotMin := dotMax;
    for k := 1 to |points|
      invariant dotMax == MaxDot(points[..k], normal) && dotMin == MinDot(points[..k], normal)
    {
      assert points[..k + 1][..k] == points[..k];
      var dot := Dot(points[k], normal);
      dotMax := RealMax(dot, dotMax);
      dotMin := RealMin(dot, dotMin);
    }
    assert points[..|points|] == points;
    overlap := dotMax - dotMin;
  }

  predicate Whole(r: real) {
    r.Floor as real == r
  }

  /** A pixel point projected on an axis gives a whole number. */
  lemma WholeDot(v: Vec, n: Vec)
    requires IsAxis(n) && Whole(v.x) && Whole(v.y)
    ensures Whole(Dot(v, n))
  {
    if n == Vec(-1.0, 0.0) {
      assert Dot(v, n) == -v.x && (-v.x).Floor == -v.x.Floor;
    } else if n == Vec(0.0, -1.0) {
      assert Dot(v, n) == -v.y && (-v.y).Floor == -v.y.Floor;
    }
  }

  /** Projected on an axis, pixel points give whole projections, so the overlap is a whole
      number of pixels. */
  lemma {:induction false} WholeDots(points: seq<Vec>, n: Vec)
    requires |points| > 0 && IsAxis(n)
    requires forall k :: 0 <= k < |points| ==> Whole(points[k].x) && Whole(points[k].y)
    ensures Whole(MaxDot(points, n)) && Whole(MinDot(points, n))
  {
    WholeDot(points[|points| - 1], n);
    if |points| > 1 {
      var init := points[..|points| - 1];
      forall k | 0 <= k < |init|
        ensures init[k] == points[k]
      {
      }
      WholeDots(init, n);
    }
  }

  // ---- checkCollision

  /** The whole test as a function of its inputs: null (None) for an empty body, a square that
      misses the rectangle, a window without covered pixels or a contact moving away. */
  ghost function Outcome(b: BodyState, rect: Rect, painted: Painting): Option<Contact>
    requires b.radiusSq >= 0.0 && rect.width > 0 && rect.height > 0
  {
    if b.empty || !Overlaps(Square(b), rect) then None
    else
      var win := Window(Square(b), rect);
      WindowNonEmpty(Square(b), rect);
      var hits := Hits(painted, win);
      if |hits| == 0 then None
      else
        var point := Mean(hits);
        var normal := Normal(point, rect);
        if Dot(PointVelocity(point, b.pos, b.vel, b.angularVel), normal) >= 0.0 then None
        else Some(Contact(point, normal, MaxDot(hits, normal) - MinDot(hits, normal)))
  }

  /** checkCollision. */
  method CheckCollision(b: BodyState, rect: Rect, painted: Painting) returns (r: Option<Contact>)
    requires b.radiusSq >= 0.0 && rect.width > 0 && rect.height > 0
    ensures r == Outcome(b, rect, painted)
  {
    if b.empty {
      return None;
    }
    var radius := FloorSqrt(b.radiusSq) + 5;
    var L := Trunc(b.pos.x) - radius;
    var U := Trunc(b.pos.y) - radius;
    var R := L + radius * 2;
    var D := U + radius * 2;
    assert Box(L, U, R, D) == Square(b);
    if D <= rect.y || U >= rect.y + rect.height || R <= rect.x || L >= rect.x + rect.width {
      return None;
    }
    var limits := Box(Larger(L, rect.x), Larger(U, rect.y),
                      Smaller(R, rect.x + rect.width), Smaller(D, rect.y + rect.height));
    assert limits == Window(Square(b), rect);
    WindowNonEmpty(Square(b), rect);
    var colPoints := CollectHits(painted, limits);
    if |colPoints| == 0 {
      return None;
    }
    var point := AvgPoint(colPoints);
    var normal := Normal(point, rect);
    if Dot(PointVelocity(point, b.pos, b.vel, b.angularVel), normal) >= 0.0 {
      return None;
    }
    var overlap := Overlap(colPoints, normal);
    r := Some(Contact(point, normal, overlap));
  }

  /** An empty body, or a square that misses the rectangle, never collides. */
  lemma NoContactWithout(b: BodyState, rect: Rect, painted: Painting)
    requires b.radiusSq >= 0.0 && rect.width > 0 && rect.height > 0
    ensures b.empty ==> Outcome(b, rect, painted).None?
    ensures !Overlaps(Square(b), rect) ==> Outcome(b, rect, painted).None?
    ensures (forall x, y :: !painted(x, y)) ==> Outcome(b, rect, painted).None?
  {
    if !b.empty && Overlaps(Square(b), rect) && forall x, y :: !painted(x, y) {
      var win := Window(Square(b), rect);
      WindowNonEmpty(Square(b), rect);
      var hits := Hits(painted, win);
      HitsArePaintedPixels(painted, win);
      if |hits| > 0 {
        assert hits[0] in hits;
      }
    }
  }

  /** A contact that checkCollision returns: the point approaches the rectangle along the normal,
      the normal is an axis, the contact point lies in the window, and the overlap is a whole,
      non-negative number of pixels. */
  lemma ContactProperties(b: BodyState, rect: Rect, painted: Painting)
    requires b.radiusSq >= 0.0 && rect.width > 0 && rect.height > 0
    requires Outcome(b, rect, painted).Some?
    ensures var c := Outcome(b, rect, painted).value;
      Dot(PointVelocity(c.point, b.pos, b.vel, b.angularVel), c.normal) < 0.0 &&
      IsAxis(c.normal) && c.overlap >= 0.0 && Whole(c.overlap)
    ensures var c := Outcome(b, rect, painted).value;
      var win := Window(Square(b), rect);
      win.left as real <= c.point.x <= win.right as real && win.up as real <= c.point.y <= win.down as real
  {
    var win := Window(Square(b), rect);
    WindowNonEmpty(Square(b), rect);
    var hits := Hits(painted, win);
    var c := Outcome(b, rect, painted).value;
    HitsArePaintedPixels(painted, win);
    forall k | 0 <= k < |hits|
      ensures win.left as real <= hits[k].x <= win.right as real && win.up as real <= hits[k].y <= win.down as real
      ensures Whole(hits[k].x) && Whole(hits[k].y)
    {
      assert hits[k] in hits;
      var x, y :| HitAt(painted, win, hits[k], x, y);
    }
    MeanWithin(hits, win);
    NormalProperties(c.point, rect);
    DotExtremes(hits, c.normal);
    WholeDots(hits, c.normal);
    var hi, lo := MaxDot(hits, c.normal), MinDot(hits, c.normal);
    assert Whole(hi - lo) by {
      assert (hi - lo).Floor == hi.Floor - lo.Floor;
    }
  }

  /** The ground (x, y, w, h) = (-50, groundLevel, 100000, 50) is wider than high, so every
      ground contact has a vertical normal. */
  lemma GroundNormalIsVertical(b: BodyState, groundLevel: int, painted: Painting)
    requires b.radiusSq >= 0.0
    requires Outcome(b, Rect(-50, groundLevel, 100000, 50), painted).Some?
    ensures Outcome(b, Rect(-50, groundLevel, 100000, 50), painted).value.normal.x == 0.0
  {
    var c := Outcome(b, Rect(-50, groundLevel, 100000, 50), painted).value;
    NormalProperties(c.point, Rect(-50, groundLevel, 100000, 50));
  }
}
