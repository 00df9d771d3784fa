/** The mass model of a rigid body (physics/entities/RigidBody.java): what the pixel mask of a body
    determines — pixel count, centre of mass, moment of inertia, collision radius — and the pure
    formulas of contact response. A mask is column-major: `g[i][j]` is the pixel at x = i, y = j. */
module Shape {
  import opened Vectors

  datatype Option<T> = None | Some(value: T)

  type Grid = seq<seq<bool>>

  /** A mask of w columns of h pixels each. */
  predicate Rectangular(g: Grid, w: nat, h: nat) {
    |g| == w && forall i :: 0 <= i < w ==> |g[i]| == h
  }

  /** Pixel (i, j) lies in the mask and is occupied. */
  predicate Cell(g: Grid, i: int, j: int) {
    0 <= i < |g| && 0 <= j < |g[i]| && g[i][j]
  }

  // ---- Counting and summing over the occupied pixels, in the source's scan order

  /** Occupied pixels among the first m of column `col`. */
  function ColumnCount(col: seq<bool>, m: nat): nat
    requires m <= |col|
  {
    if m == 0 then 0 else ColumnCount(col, m - 1) + (if col[m - 1] then 1 else 0)
  }

  /** Occupied pixels in the first k columns. */
  function CountUpTo(g: Grid, k: nat): nat
    requires k <= |g|
  {
    if k == 0 then 0 else CountUpTo(g, k - 1) + ColumnCount(g[k - 1], |g[k - 1]|)
  }

  /** The pixel count n of updateShape, updateMass and updateMomentOfInertia. */
  function Count(g: Grid): nat {
    CountUpTo(g, |g|)
  }

  /** F summed over the occupied pixels among the first m of column i. */
  function ColumnSum(col: seq<bool>, i: int, m: nat, F: (int, int) -> real): real
    requires m <= |col|
  {
    if m == 0 then 0.0 else ColumnSum(col, i, m - 1, F) + (if col[m - 1] then F(i, m - 1) else 0.0)
  }

  /** F summed over the occupied pixels of the first k columns. */
  function SumUpTo(g: Grid, k: nat, F: (int, int) -> real): real
    requires k <= |g|
  {
    if k == 0 then 0.0 else SumUpTo(g, k - 1, F) + ColumnSum(g[k - 1], k - 1, |g[k - 1]|, F)
  }

  function CellSum(g: Grid, F: (int, int) -> real): real {
    SumUpTo(g, |g|, F)
  }

  /** The x and y coordinates of a pixel, and its offsets from a point, as summands. */
  function PixelX(): (int, int) -> real {
    (i: int, j: int) => i as real
  }

  function PixelY(): (int, int) -> real {
    (i: int, j: int) => j as real
  }

  function OffsetX(a: real): (int, int) -> real {
    (i: int, j: int) => i as real - a
  }

  function OffsetY(a: real): (int, int) -> real {
    (i: int, j: int) => j as real - a
  }

  /** The squared distance from the centre c to pixel (i, j). */
  function DistSq(c: Vec, i: int, j: int): real {
    LengthSquare(Minus(c, Vec(i as real, j as real)))
  }

  /** The largest squared distance from c to an occupied pixel of the first m of column i,
      starting from `r`: the `if (distance > collisionRadius)` update. */
  function ColumnMax(col: seq<bool>, i: int, m: nat, c: Vec, r: real): real
    requires m <= |col|
  {
    if m == 0 then r
    else
      var prev := ColumnMax(col, i, m - 1, c, r);
      if col[m - 1] && DistSq(c, i, m - 1) > prev then DistSq(c, i, m - 1) else prev
  }

  function MaxUpTo(g: Grid, k: nat, c: Vec): real
    requires k <= |g|
  {
    if k == 0 then 0.0 else ColumnMax(g[k - 1], k - 1, |g[k - 1]|, c, MaxUpTo(g, k - 1, c))
  }

  // ---- What the mask determines

  /** updateMass's centre of gravity: the mean of the occupied pixels, or null for none. */
  function Centre(g: Grid): (r: Option<Vec>)
    ensures r.None? <==> Count(g) == 0
  {
    var n := Count(g);
    if n == 0 then None
    else Some(Vec(CellSum(g, PixelX()) / n as real, CellSum(g, PixelY()) / n as real))
  }

  function DistanceSquares(c: Vec): (int, int) -> real {
    (i: int, j: int) => DistSq(c, i, j)
  }

  /** updateMomentOfInertia's sum of squared distances to the centre. */
  function InertiaSum(g: Grid, c: Vec): real {
    CellSum(g, DistanceSquares(c))
  }

  /** The squared collision radius: the largest squared distance of an occupied pixel to the
      centre (0 without one). */
  function RadiusSq(g: Grid, c: Vec): real {
    MaxUpTo(g, |g|, c)
  }

  // ---- Lemmas about the mass model

  lemma {:induction false} ColumnCountZero(col: seq<bool>, m: nat)
    requires m <= |col|
    ensures ColumnCount(col, m) == 0 <==> forall j :: 0 <= j < m ==> !col[j]
  {
    if m > 0 {
      ColumnCountZero(col, m - 1);
    }
  }

  lemma {:induction false} CountUpToZero(g: Grid, k: nat)
    requires k <= |g|
    ensures CountUpTo(g, k) == 0 <==> forall i, j :: 0 <= i < k && Cell(g, i, j) ==> false
  {
    if k > 0 {
      CountUpToZero(g, k - 1);
      ColumnCountZero(g[k - 1], |g[k - 1]|);
      if CountUpTo(g, k) != 0 && CountUpTo(g, k - 1) == 0 {
        var j :| 0 <= j < |g[k - 1]| && g[k - 1][j];
        assert Cell(g, k - 1, j);
      }
    }
  }

  /** A body is empty exactly when no pixel of its mask is occupied. */
  lemma EmptyIffNoCell(g: Grid)
    ensures Count(g) == 0 <==> forall i, j :: !Cell(g, i, j)
  {
    CountUpToZero(g, |g|);
  }

  /** Sums over the occupied pixels are linear in the summand. */
  lemma {:induction false} ColumnSumDifference(col: seq<bool>, i: int, m: nat, F: (int, int) -> real, G: (int, int) -> real, H: (int, int) -> real)
    requires m <= |col|
    requires forall x, y :: G(x, y) == F(x, y) - H(x, y)
    ensures ColumnSum(col, i, m, G) == ColumnSum(col, i, m, F) - ColumnSum(col, i, m, H)
  {
    if m > 0 {
      ColumnSumDifference(col, i, m - 1, F, G, H);
    }
  }

  lemma {:induction false} SumDifference(g: Grid, k: nat, F: (int, int) -> real, G: (int, int) -> real, H: (int, int) -> real)
    requires k <= |g|
    requires forall x, y :: G(x, y) == F(x, y) - H(x, y)
    ensures SumUpTo(g, k, G) == SumUpTo(g, k, F) - SumUpTo(g, k, H)
  {
    if k > 0 {
      SumDifference(g, k - 1, F, G, H);
      ColumnSumDifference(g[k - 1], k - 1, |g[k - 1]|, F, G, H);
    }
  }

  /** Summing a times F is a times the sum of F. */
  lemma {:induction false} ColumnSumScales(col: seq<bool>, i: int, m: nat, F: (int, int) -> real, G: (int, int) -> real, a: real)
    requires m <= |col|
    requires forall x, y :: G(x, y) == a * F(x, y)
    ensures ColumnSum(col, i, m, G) == a * ColumnSum(col, i, m, F)
  {
    if m > 0 {
      ColumnSumScales(col, i, m - 1, F, G, a);
    }
  }

  lemma {:induction false} SumScales(g: Grid, k: nat, F: (int, int) -> real, G: (int, int) -> real, a: real)
    requires k <= |g|
    requires forall x, y :: G(x, y) == a * F(x, y)
    ensures SumUpTo(g, k, G) == a * SumUpTo(g, k, F)
  {
    if k > 0 {
      SumScales(g, k - 1, F, G, a);
      ColumnSumScales(g[k - 1], k - 1, |g[k - 1]|, F, G, a);
    }
  }

  /** Summing 1.0 over the occupied pixels counts them. */
  lemma {:induction false} ColumnSumOnes(col: seq<bool>, i: int, m: nat, F: (int, int) -> real)
    requires m <= |col|
    requires forall x, y :: F(x, y) == 1.0
    ensures ColumnSum(col, i, m, F) == ColumnCount(col, m) as real
  {
    if m > 0 {
      ColumnSumOnes(col, i, m - 1, F);
    }
  }

  lemma {:induction false} SumOnes(g: Grid, k: nat, F: (int, int) -> real)
    requires k <= |g|
    requires forall x, y :: F(x, y) == 1.0
    ensures SumUpTo(g, k, F) == CountUpTo(g, k) as real
  {
    if k > 0 {
      SumOnes(g, k - 1, F);
      ColumnSumOnes(g[k - 1], k - 1, |g[k - 1]|, F);
    }
  }

  /** A constant a summed over the occupied pixels is a times their number. */
  lemma SumConstant(g: Grid, k: nat, H: (int, int) -> real, a: real)
    requires k <= |g|
    requires forall x, y :: H(x, y) == a
    ensures SumUpTo(g, k, H) == a * CountUpTo(g, k) as real
  {
    SumOnes(g, k, Constant(1.0));
    SumScales(g, k, Constant(1.0), H, a);
  }

  function Constant(a: real): (int, int) -> real {
    (i: int, j: int) => a
  }

  lemma MeanBalances(s: real, n: real)
    requires n != 0.0
    ensures s - s / n * n == 0.0
  {
  }

  /** Offsets from the mean of F over the occupied pixels sum to zero. */
  lemma OffsetsBalance(g: Grid, F: (int, int) -> real, G: (int, int) -> real, m: real)
    requires Count(g) > 0 && m == CellSum(g, F) / Count(g) as real
    requires forall x, y :: G(x, y) == F(x, y) - m
    ensures CellSum(g, G) == 0.0
  {
    SumDifference(g, |g|, F, G, Constant(m));
    SumConstant(g, |g|, Constant(m), m);
    MeanBalances(CellSum(g, F), Count(g) as real);
  }

  /** The centre of mass balances the body: the offsets of the occupied pixels from it sum to
      zero in each axis. */
  lemma CentreBalances(g: Grid)
    requires Count(g) > 0
    ensures CellSum(g, OffsetX(Centre(g).value.x)) == 0.0
    ensures CellSum(g, OffsetY(Centre(g).value.y)) == 0.0
  {
    var c := Centre(g).value;
    OffsetsBalance(g, PixelX(), OffsetX(c.x), c.x);
    OffsetsBalance(g, PixelY(), OffsetY(c.y), c.y);
  }

  lemma InertiaScales(s: real, n: real, density: real)
    requires n != 0.0
    ensures s / n * (n * density) == density * s
  {
    assert s / n * (n * density) == s / n * n * density;
  }

  /** momentInertia = sum / n * mass with mass = n * density is density times the sum of squared
      distances. */
  lemma InertiaIsDensityTimesSum(g: Grid, density: real)
    requires Count(g) > 0
    ensures var n := Count(g) as real;
      InertiaSum(g, Centre(g).value) / n * (n * density) == density * InertiaSum(g, Centre(g).value)
  {
    InertiaScales(InertiaSum(g, Centre(g).value), Count(g) as real, density);
  }

  lemma {:induction false} ColumnMaxBounds(col: seq<bool>, i: int, m: nat, c: Vec, r: real)
    requires m <= |col|
    ensures ColumnMax(col, i, m, c, r) >= r
    ensures forall j :: 0 <= j < m && col[j] ==> ColumnMax(col, i, m, c, r) >= DistSq(c, i, j)
    ensures ColumnMax(col, i, m, c, r) == r ||
            exists j :: 0 <= j < m && col[j] && ColumnMax(col, i, m, c, r) == DistSq(c, i, j)
  {
    if m > 0 {
      ColumnMaxBounds(col, i, m - 1, c, r);
    }
  }

  lemma {:induction false} MaxUpToBounds(g: Grid, k: nat, c: Vec)
    requires k <= |g|
    ensures MaxUpTo(g, k, c) >= 0.0
    ensures forall i, j :: 0 <= i < k && Cell(g, i, j) ==> MaxUpTo(g, k, c) >= DistSq(c, i, j)
    ensures MaxUpTo(g, k, c) == 0.0 ||
            exists i, j :: 0 <= i < k && Cell(g, i, j) && MaxUpTo(g, k, c) == DistSq(c, i, j)
  {
    if k > 0 {
      MaxUpToBounds(g, k - 1, c);
      ColumnMaxBounds(g[k - 1], k - 1, |g[k - 1]|, c, MaxUpTo(g, k - 1, c));
      var r := MaxUpTo(g, k, c);
      if r != 0.0 && r != MaxUpTo(g, k - 1, c) {
        var j :| 0 <= j < |g[k - 1]| && g[k - 1][j] && r == DistSq(c, k - 1, j);
        assert Cell(g, k - 1, j);
      }
    }
  }

  /** The collision circle encloses the body: its squared radius bounds every occupied pixel's
      squared distance to the centre, and is attained by one of them. */
  lemma RadiusIsMaximum(g: Grid, c: Vec)
    ensures forall i, j :: Cell(g, i, j) ==> RadiusSq(g, c) >= DistSq(c, i, j)
    ensures Count(g) > 0 ==> exists i, j :: Cell(g, i, j) && RadiusSq(g, c) == DistSq(c, i, j)
  {
    MaxUpToBounds(g, |g|, c);
    if Count(g) > 0 && RadiusSq(g, c) == 0.0 {
      EmptyIffNoCell(g);
      var i, j :| Cell(g, i, j);
      assert DistSq(c, i, j) >= 0.0;
    }
  }

  lemma {:induction false} ColumnCountFull(col: seq<bool>, m: nat)
    requires m <= |col| && forall j :: 0 <= j < |col| ==> col[j]
    ensures ColumnCount(col, m) == m
  {
    if m > 0 {
      ColumnCountFull(col, m - 1);
    }
  }

  lemma {:induction false} CountUpToFull(g: Grid, k: nat, h: nat)
    requires k <= |g| && Rectangular(g, |g|, h) && forall i, j :: 0 <= i < |g| && 0 <= j < h ==> g[i][j]
    ensures CountUpTo(g, k) == k * h
  {
    if k > 0 {
      CountUpToFull(g, k - 1, h);
      ColumnCountFull(g[k - 1], h);
    }
  }

  /** A fully occupied w-by-h mask has w * h pixels. */
  lemma SolidCount(g: Grid, w: nat, h: nat)
    requires Rectangular(g, w, h) && forall i, j :: 0 <= i < w && 0 <= j < h ==> g[i][j]
    ensures Count(g) == w * h
  {
    CountUpToFull(g, w, h);
  }

  lemma {:induction false} ColumnSumBound(col: seq<bool>, i: int, m: nat, F: (int, int) -> real)
    requires m <= |col| && forall x, y :: F(x, y) >= 0.0
    ensures ColumnSum(col, i, m, F) >= 0.0
    ensures forall j :: 0 <= j < m && col[j] ==> ColumnSum(col, i, m, F) >= F(i, j)
  {
    if m > 0 {
      ColumnSumBound(col, i, m - 1, F);
    }
  }

  /** A sum of non-negative terms bounds each of its terms. */
  lemma {:induction false} SumUpToBound(g: Grid, k: nat, F: (int, int) -> real)
    requires k <= |g| && forall x, y :: F(x, y) >= 0.0
    ensures SumUpTo(g, k, F) >= 0.0
    ensures forall i, j :: 0 <= i < k && Cell(g, i, j) ==> SumUpTo(g, k, F) >= F(i, j)
  {
    if k > 0 {
      SumUpToBound(g, k - 1, F);
      ColumnSumBound(g[k - 1], k - 1, |g[k - 1]|, F);
    }
  }

  lemma {:induction false} ColumnTwo(col: seq<bool>, m: nat) returns (j1: nat, j2: nat)
    requires m <= |col| && ColumnCount(col, m) >= 2
    ensures j1 < j2 < m && col[j1] && col[j2]
  {
    if col[m - 1] && ColumnCount(col, m - 1) > 0 {
      ColumnCountZero(col, m - 1);
      j1 :| 0 <= j1 < m - 1 && col[j1];
      j2 := m - 1;
    } else {
      j1, j2 := ColumnTwo(col, m - 1);
    }
  }

  /** Two or more occupied pixels are two different pixels. */
  lemma {:induction false} TwoCells(g: Grid, k: nat) returns (a: Pixel, b: Pixel)
    requires k <= |g| && CountUpTo(g, k) >= 2
    ensures a != b && Cell(g, a.x, a.y) && Cell(g, b.x, b.y)
  {
    var col := g[k - 1];
    var c := ColumnCount(col, |col|);
    if c >= 2 {
      var j1, j2 := ColumnTwo(col, |col|);
      a, b := Pixel(k - 1, j1), Pixel(k - 1, j2);
    } else if c == 1 && CountUpTo(g, k - 1) > 0 {
      ColumnCountZero(col, |col|);
      CountUpToZero(g, k - 1);
      var j :| 0 <= j < |col| && col[j];
      var i', j' :| 0 <= i' < k - 1 && Cell(g, i', j');
      a, b := Pixel(k - 1, j), Pixel(i', j');
    } else {
      a, b := TwoCells(g, k - 1);
    }
  }

  lemma SumSquaresPositive(x: real, y: real)
    requires x != 0.0 || y != 0.0
    ensures x * x + y * y > 0.0
  {
    if x != 0.0 {
      if x < 0.0 {
        assert x * x == (-x) * (-x);
      }
      assert y * y >= 0.0;
    } else if y < 0.0 {
      assert y * y == (-y) * (-y);
    }
  }

  lemma DistSqPositive(c: Vec, i: int, j: int)
    requires c != Vec(i as real, j as real)
    ensures DistSq(c, i, j) > 0.0
  {
    var d := Minus(c, Vec(i as real, j as real));
    calc {
      DistSq(c, i, j);
    ==
      d.x * d.x + d.y * d.y;
    > { SumSquaresPositive(d.x, d.y); }
      0.0;
    }
  }

  /** A mask of two or more pixels has a positive sum of squared distances about any point: the
      two pixels cannot both lie at it. */
  lemma SpreadInertia(g: Grid, c: Vec)
    requires Count(g) >= 2
    ensures InertiaSum(g, c) > 0.0
  {
    var a, b := TwoCells(g, |g|);
    assert forall x, y :: DistanceSquares(c)(x, y) >= 0.0;
    SumUpToBound(g, |g|, DistanceSquares(c));
    if c != Vec(a.x as real, a.y as real) {
      DistSqPositive(c, a.x, a.y);
      assert InertiaSum(g, c) >= DistanceSquares(c)(a.x, a.y);
    } else {
      DistSqPositive(c, b.x, b.y);
      assert InertiaSum(g, c) >= DistanceSquares(c)(b.x, b.y);
    }
  }

  // ---- Contact response formulas of handleCollision

  /** Math.signum. */
  function Signum(x: real): real {
    if x > 0.0 then 1.0 else if x < 0.0 then -1.0 else 0.0
  }

  function Abs(x: real): real {
    if x < 0.0 then -x else x
  }

  /** calcPointVelocity: the velocity vel + w * (r.y, -r.x) of a world point, r = point - centre. */
  function PointVelocity(point: Vec, centre: Vec, vel: Vec, angularVel: real): Vec {
    var r := Minus(point, centre);
    Plus(Scale(Vec(r.y, -r.x), angularVel), vel)
  }

  /** The rotational part of a point's velocity is perpendicular to its radius, and vanishes
      without rotation or at the centre itself. */
  lemma PointVelocityProperties(point: Vec, centre: Vec, vel: Vec, angularVel: real)
    ensures Dot(Minus(PointVelocity(point, centre, vel, angularVel), vel), Minus(point, centre)) == 0.0
    ensures angularVel == 0.0 || point == centre ==> PointVelocity(point, centre, vel, angularVel) == vel
  {
    var r := Minus(point, centre);
    assert r.y * angularVel * r.x + -r.x * angularVel * r.y == 0.0;
  }

  /** 1/m + q/I: the effective inverse mass of a contact, q a squared lever arm. */
  function InverseMass(mass: real, inertia: real, q: real): (r: real)
    requires mass > 0.0 && inertia > 0.0 && q >= 0.0
    ensures r > 0.0
  {
    assert 1.0 / mass > 0.0;
    assert q / inertia >= 0.0;
    1.0 / mass + q / inertia
  }

  /** impulseAbs = -(1 + damping) * dot(pointVel, normal) / (1/m + cross(r, normal)^2 / I). */
  function ImpulseMagnitude(damping: real, normalVel: real, mass: real, inertia: real, lever: real): real
    requires mass > 0.0 && inertia > 0.0
  {
    assert lever * lever >= 0.0;
    -(1.0 + damping) * normalVel / InverseMass(mass, inertia, lever * lever)
  }

  /** A contact point approaching the surface (normalVel < 0) receives a positive impulse away
      from it. */
  lemma ImpulsePushesOut(damping: real, normalVel: real, mass: real, inertia: real, lever: real)
    requires mass > 0.0 && inertia > 0.0 && damping > -1.0 && normalVel < 0.0
    ensures ImpulseMagnitude(damping, normalVel, mass, inertia, lever) > 0.0
  {
    assert -(1.0 + damping) * normalVel > 0.0;
  }

  /** The friction impulse along the tangent: gravity * mass * friction against the tangential
      velocity, clamped to the impulse that would stop the point along the tangent. */
  function FrictionImpulse(tangentVel: real, gravity: real, friction: real, mass: real, inertia: real, rSq: real): real
    requires mass > 0.0 && inertia > 0.0 && rSq >= 0.0
  {
    var frictionForce := gravity * mass * friction * -Signum(tangentVel);
    var toStop := -tangentVel / InverseMass(mass, inertia, rSq);
    if Abs(frictionForce) > Abs(toStop) then toStop else frictionForce
  }

  /** The impulse that brings the contact point to rest along the tangent. */
  function StoppingImpulse(tangentVel: real, mass: real, inertia: real, rSq: real): real
    requires mass > 0.0 && inertia > 0.0 && rSq >= 0.0
  {
    -tangentVel / InverseMass(mass, inertia, rSq)
  }

  lemma StoppingOpposes(tangentVel: real, mass: real, inertia: real, rSq: real)
    requires mass > 0.0 && inertia > 0.0 && rSq >= 0.0
    ensures tangentVel > 0.0 ==> StoppingImpulse(tangentVel, mass, inertia, rSq) < 0.0
    ensures tangentVel < 0.0 ==> StoppingImpulse(tangentVel, mass, inertia, rSq) > 0.0
    ensures tangentVel == 0.0 ==> StoppingImpulse(tangentVel, mass, inertia, rSq) == 0.0
  {
  }

  /** Friction never exceeds Coulomb's bound gravity * mass * friction nor the impulse that stops
      the point, and it opposes the tangential velocity (none without one). */
  lemma FrictionIsBounded(tangentVel: real, gravity: real, friction: real, mass: real, inertia: real, rSq: real)
    requires mass > 0.0 && inertia > 0.0 && rSq >= 0.0 && gravity > 0.0 && friction > 0.0
    ensures var f := FrictionImpulse(tangentVel, gravity, friction, mass, inertia, rSq);
      Abs(f) <= gravity * mass * friction &&
      Abs(f) <= Abs(StoppingImpulse(tangentVel, mass, inertia, rSq)) &&
      (tangentVel > 0.0 ==> f < 0.0) &&
      (tangentVel < 0.0 ==> f > 0.0) &&
      (tangentVel == 0.0 ==> f == 0.0)
  {
    StoppingOpposes(tangentVel, mass, inertia, rSq);
    var coulomb := gravity * mass * friction;
    assert coulomb > 0.0 by {
      assert gravity * mass > 0.0;
    }
    var frictionForce := coulomb * -Signum(tangentVel);
    assert Abs(frictionForce) == if tangentVel == 0.0 then 0.0 else coulomb;
  }

  // ---- The integer square root behind (int) collisionRadius

  /** floor(sqrt(n)) for a natural n. */
  function ISqrt(n: nat): (r: nat)
    ensures r * r <= n < (r + 1) * (r + 1)
  {
    if n == 0 then 0
    else
      var t := ISqrt(n / 4);
      ISqrtStep(n, t);
      ISqrtPick(n, 2 * t)
  }

  lemma ISqrtStep(n: nat, t: nat)
    requires t * t <= n / 4 < (t + 1) * (t + 1)
    ensures (2 * t) * (2 * t) <= n < (2 * t + 2) * (2 * t + 2)
  {
    assert (2 * t) * (2 * t) == 4 * (t * t);
    assert (2 * t + 2) * (2 * t + 2) == 4 * ((t + 1) * (t + 1));
  }

  /** The root is s or s + 1 when n lies between the squares of s and s + 2. */
  function ISqrtPick(n: nat, s: nat): (r: nat)
    requires s * s <= n < (s + 2) * (s + 2)
    ensures r * r <= n < (r + 1) * (r + 1)
  {
    if (s + 1) * (s + 1) <= n then s + 1 else s
  }

  /** (int) collisionRadius, for a collision radius whose square is x: floor(sqrt(x)). */
  function FloorSqrt(x: real): (r: nat)
    requires x >= 0.0
    ensures (r * r) as real <= x < ((r + 1) * (r + 1)) as real
  {
    ISqrt(x.Floor)
  }
}
