/** One rigid body (physics/entities/RigidBody.java): the mask and mass model it derives from its
    image, impulses, the response to a ground contact and one simulation step.
    The Java body keeps its collision radius; this model keeps the radius's square, which is what
    every comparison needs (the square root is not modelled). Positions and velocities are values:
    the sharing of Vector objects between bodies is not modelled. */
module RigidBody {
  import opened Vectors
  import opened Shape
  import opened Rk4
  import opened Gravity
  import opened Collision
  import opened Segmentation

  /** The getRGB value updateShape treats as transparent. */
  const Clear: int := 0

  /** Math.PI, as written in decimal. */
  const Pi: real := 3.141592653589793

  /** The tolerance of the rotation wrap in `update`. */
  const Tolerance: real := 0.000001

  /** The coefficients every body is created with: gravity 400, damping 0.5f and friction 0.01f,
      the last widened from float to double (10737418 / 2^30). */
  const GravityAccel: real := 400.0
  const Damping: real := 0.5
  const Friction: real := 10737418.0 / 1073741824.0

  /** The ground of handleCollisions: Rectangle(-50, groundLevel, 100000, 50). */
  function Ground(groundLevel: int): (r: Rect)
    ensures r.width > r.height > 0
  {
    Rect(-50, groundLevel, 100000, 50)
  }

  // ---- The mass model

  /** The mask updateShape reads off an image. */
  function Mask(img: Raster, w: nat, h: nat): (g: Grid)
    requires IsRaster(img, w, h)
    ensures Rectangular(g, w, h)
  {
    seq(w, i requires 0 <= i < w => seq(h, j requires 0 <= j < h => img[i][j] != Clear))
  }

  /** updateMass's mass: n * density, or 0 without pixels. */
  function MassOf(g: Grid, density: real): real {
    if Count(g) == 0 then 0.0 else Count(g) as real * density
  }

  /** updateMomentOfInertia's moment of inertia: sum / n * mass, or 0 without pixels. */
  function InertiaOf(g: Grid, density: real): real {
    match Centre(g)
    case None => 0.0
    case Some(c) => InertiaSum(g, c) / Count(g) as real * MassOf(g, density)
  }

  /** updateMomentOfInertia's collision radius, squared: 0 without pixels. */
  function CollisionRadiusSq(g: Grid): real {
    match Centre(g)
    case None => 0.0
    case Some(c) => RadiusSq(g, c)
  }

  /** An empty mask, and only an empty one, has no occupied pixel; it gives no centre, no mass, no
      moment of inertia and no collision radius. */
  lemma EmptyMassModel(g: Grid, density: real)
    ensures Count(g) == 0 <==> forall i, j :: !Cell(g, i, j)
    ensures Count(g) == 0 ==>
      Centre(g).None? && MassOf(g, density) == 0.0 && InertiaOf(g, density) == 0.0 && CollisionRadiusSq(g) == 0.0
  {
    EmptyIffNoCell(g);
  }

  /** updateMomentOfInertia after updateMass yields the moment of inertia and the collision
      radius of the mass model. */
  lemma Rederived(g: Grid, density: real, centre: Option<Vec>, mass: real, inertia: real, radiusSq: real)
    requires centre == Centre(g) && mass == MassOf(g, density)
    requires Count(g) == 0 ==> inertia == 0.0 && radiusSq == 0.0
    requires Count(g) > 0 ==> (centre.Some? &&
      inertia == InertiaSum(g, centre.value) / Count(g) as real * mass && radiusSq == RadiusSq(g, centre.value))
    ensures inertia == InertiaOf(g, density) && radiusSq == CollisionRadiusSq(g)
  {
  }

  /** A mask with pixels gives a mass of n * density, positive for a positive density, a moment of
      inertia of density times the sum of squared distances to the centre, and a collision circle
      through the farthest pixel that encloses all the others. */
  lemma MassModelOfPixels(g: Grid, density: real)
    requires Count(g) > 0
    ensures var c := Centre(g).value;
      MassOf(g, density) == Count(g) as real * density &&
      InertiaOf(g, density) == density * InertiaSum(g, c) &&
      (forall i, j :: Cell(g, i, j) ==> DistSq(c, i, j) <= CollisionRadiusSq(g)) &&
      (exists i, j :: Cell(g, i, j) && DistSq(c, i, j) == CollisionRadiusSq(g))
    ensures density > 0.0 ==> MassOf(g, density) > 0.0
  {
    var c := Centre(g).value;
    InertiaIsDensityTimesSum(g, density);
    RadiusIsMaximum(g, c);
  }

  /** A mask of two or more pixels of a positive density has a positive moment of inertia: no
      two pixels lie both at the centre. */
  lemma SpreadMassModel(g: Grid, density: real)
    requires Count(g) >= 2 && density > 0.0
    ensures InertiaOf(g, density) > 0.0
  {
    MassModelOfPixels(g, density);
    var c := Centre(g).value;
    SpreadInertia(g, c);
    calc {
      InertiaOf(g, density);
    ==
      density * InertiaSum(g, c);
    > { ProductPositive(density, InertiaSum(g, c)); }
      0.0;
    }
  }

  lemma ProductPositive(a: real, b: real)
    requires a > 0.0 && b > 0.0
    ensures a * b > 0.0
  {
  }

  /** updateShape's first loops: the mask of the image, read pixel by pixel, and its pixel count. */
  method ReadMask(img: Raster, w: nat, h: nat) returns (grid: Grid, n: nat)
    requires IsRaster(img, w, h)
    ensures grid == Mask(img, w, h) && n == Count(grid)
  {
    ghost var M := Mask(img, w, h);
    grid := [];
    n := 0;
    for i := 0 to w
      invariant grid == M[..i]
      invariant n == CountUpTo(M, i)
    {
      var col: seq<bool> := [];
      for j := 0 to h
        invariant col == M[i][..j]
        invariant n == CountUpTo(M, i) + ColumnCount(M[i], j)
      {
        var rgb := img[i][j];
        if rgb == Clear {
          col := col + [false];
        } else {
          col := col + [true];
          n := n + 1;
        }
      }
      assert col == M[i];
      grid := grid + [col];
    }
    assert grid == M;
  }

  /** The mask of an image is a picture of its non-transparent pixels. */
  lemma MaskIsOpaquePixels(img: Raster, w: nat, h: nat)
    requires IsRaster(img, w, h)
    ensures forall i, j :: Cell(Mask(img, w, h), i, j) <==> 0 <= i < w && 0 <= j < h && img[i][j] != Clear
  {
  }

  // ---- Motion and its changes

  /** The state that impulses, flights and contacts change. */
  datatype Motion = Motion(pos: Vec, vel: Vec, rotation: real, angularVel: real)

  /** The state they leave alone: the image and everything the mass model derives from it. */
  datatype Form = Form(image: Raster, w: nat, h: nat, density: real, pixels: Grid, empty: bool,
                       centre: Option<Vec>, mass: real, inertia: real, radiusSq: real)

  /** applyImpulse acts unless the body is empty or the impulse has length 0, which only the
      zero vector has. */
  predicate Kicks(empty: bool, impulse: Vec) {
    !empty && impulse != Zero
  }

  /** applyImpulse(impulse, origin): vel += impulse / mass and
      angularVel += cross(origin - pos, impulse) / momentInertia. */
  function Impulsed(m: Motion, empty: bool, mass: real, inertia: real, impulse: Vec, origin: Vec): Motion
    requires Kicks(empty, impulse) ==> mass > 0.0 && inertia > 0.0
  {
    if !Kicks(empty, impulse) then m
    else
      var torque := Cross(Minus(origin, m.pos), impulse);
      Motion(m.pos, Plus(m.vel, Quotient(impulse, mass)), m.rotation, m.angularVel + torque / inertia)
  }

  lemma DivCancel(x: real, d: real)
    requires d != 0.0
    ensures (x / d) * d == x
  {
  }

  lemma VelocityKick(v: Vec, j: Vec, mass: real)
    requires mass > 0.0
    ensures Scale(Minus(Plus(v, Quotient(j, mass)), v), mass) == j
  {
    assert Minus(Plus(v, Quotient(j, mass)), v) == Quotient(j, mass);
  }

  lemma SpinKick(w: real, torque: real, inertia: real)
    requires inertia > 0.0
    ensures (w + torque / inertia - w) * inertia == torque
  {
    assert w + torque / inertia - w == torque / inertia;
    DivCancel(torque, inertia);
  }

  /** An impulse obeys Newton's second law in impulse form: mass times the change of velocity is
      the impulse, and the moment of inertia times the change of angular velocity is the torque
      about the position; position and rotation stay. */
  lemma ImpulseLaws(m: Motion, mass: real, inertia: real, impulse: Vec, origin: Vec)
    requires mass > 0.0 && inertia > 0.0 && impulse != Zero
    ensures var r := Impulsed(m, false, mass, inertia, impulse, origin);
      r.pos == m.pos && r.rotation == m.rotation &&
      Scale(Minus(r.vel, m.vel), mass) == impulse &&
      (r.angularVel - m.angularVel) * inertia == Cross(Minus(origin, m.pos), impulse)
    ensures Impulsed(m, true, mass, inertia, impulse, origin) == m
    ensures Impulsed(m, false, mass, inertia, Zero, origin) == m
  {
    VelocityKick(m.vel, impulse, mass);
    SpinKick(m.angularVel, Cross(Minus(origin, m.pos), impulse), inertia);
  }

  lemma NegZero(j: Vec)
    ensures Neg(j) == Zero <==> j == Zero
  {
    assert Neg(j).x == -j.x && Neg(j).y == -j.y;
  }

  lemma QuotientNeg(j: Vec, d: real)
    requires d != 0.0
    ensures Quotient(Neg(j), d) == Neg(Quotient(j, d))
  {
    assert (j.x * -1.0) / d == (j.x / d) * -1.0;
    assert (j.y * -1.0) / d == (j.y / d) * -1.0;
  }

  lemma SpinUndone(w: real, t: real, u: real, inertia: real)
    requires inertia != 0.0 && u == -t
    ensures w + t / inertia + u / inertia == w
  {
    assert u / inertia == -(t / inertia);
  }

  /** The opposite impulse at the same point undoes an impulse. */
  lemma ImpulseUndone(m: Motion, empty: bool, mass: real, inertia: real, impulse: Vec, origin: Vec)
    requires Kicks(empty, impulse) ==> mass > 0.0 && inertia > 0.0
    ensures Kicks(empty, Neg(impulse)) == Kicks(empty, impulse)
    ensures Impulsed(Impulsed(m, empty, mass, inertia, impulse, origin), empty, mass, inertia, Neg(impulse), origin) == m
  {
    NegZero(impulse);
    if Kicks(empty, impulse) {
      var r := Minus(origin, m.pos);
      var q := Quotient(impulse, mass);
      QuotientNeg(impulse, mass);
      assert Plus(Plus(m.vel, q), Neg(q)) == m.vel;
      SpinUndone(m.angularVel, Cross(r, impulse), Cross(r, Neg(impulse)), inertia);
    }
  }

  /** An impulse applied at the body's position exerts no torque. */
  lemma ImpulseAtPosition(m: Motion, empty: bool, mass: real, inertia: real, impulse: Vec)
    requires Kicks(empty, impulse) ==> mass > 0.0 && inertia > 0.0
    ensures Impulsed(m, empty, mass, inertia, impulse, m.pos).angularVel == m.angularVel
  {
    assert Minus(m.pos, m.pos) == Zero;
  }

  /** The tangent handleCollision uses: the normal turned a quarter. */
  function Tangent(normal: Vec): Vec {
    Vec(-normal.y, normal.x)
  }

  /** The impulse handleCollision applies at a contact: the restitution impulse along the normal
      plus the clamped friction impulse along the tangent, both computed from the state before the
      push-out. */
  function ContactImpulse(m: Motion, mass: real, inertia: real, c: Contact): Vec
    requires mass > 0.0 && inertia > 0.0
  {
    var r := Minus(c.point, m.pos);
    var pointVel := PointVelocity(c.point, m.pos, m.vel, m.angularVel);
    var impulseAbs := ImpulseMagnitude(Damping, Dot(pointVel, c.normal), mass, inertia, Cross(r, c.normal));
    var friction := FrictionImpulse(Dot(pointVel, Tangent(c.normal)), GravityAccel, Friction, mass, inertia, LengthSquare(r));
    Plus(Scale(c.normal, impulseAbs), Scale(Tangent(c.normal), friction))
  }

  /** handleCollision(col): nothing for an empty body or no contact; otherwise the body moves out
      by normal * overlap and then takes the contact impulse at the contact point. */
  function Collided(m: Motion, empty: bool, mass: real, inertia: real, col: Option<Contact>): Motion
    requires !empty && col.Some? ==> mass > 0.0 && inertia > 0.0
  {
    if empty || col.None? then m
    else
      var c := col.value;
      var pushed := Motion(Plus(m.pos, Scale(c.normal, c.overlap)), m.vel, m.rotation, m.angularVel);
      Impulsed(pushed, false, mass, inertia, ContactImpulse(m, mass, inertia, c), c.point)
  }

  /** A contact turns the body's rotation speed but not its rotation. */
  lemma CollidedKeepsRotation(m: Motion, empty: bool, mass: real, inertia: real, col: Option<Contact>)
    requires !empty && col.Some? ==> mass > 0.0 && inertia > 0.0
    ensures Collided(m, empty, mass, inertia, col).rotation == m.rotation
  {
  }

  /** The parts of the impulse a * n + f * t along a normal n and along its tangent t. */
  lemma AlongNormal(n: Vec, a: real, f: real)
    ensures var j := Plus(Scale(n, a), Scale(Tangent(n), f));
      Dot(j, n) == a * LengthSquare(n) && Dot(j, Tangent(n)) == f * LengthSquare(n)
  {
    var j := Plus(Scale(n, a), Scale(Tangent(n), f));
    assert j == Vec(n.x * a - n.y * f, n.y * a + n.x * f);
    assert Dot(j, n) == (n.x * a - n.y * f) * n.x + (n.y * a + n.x * f) * n.y;
    assert Dot(j, n) == a * (n.x * n.x + n.y * n.y);
    assert Dot(j, Tangent(n)) == (n.x * a - n.y * f) * -n.y + (n.y * a + n.x * f) * n.x;
    assert Dot(j, Tangent(n)) == f * (n.x * n.x + n.y * n.y);
  }

  /** The normals checkCollision reports are unit vectors. */
  lemma AxisIsUnit(n: Vec)
    requires IsAxis(n)
    ensures LengthSquare(n) == 1.0
  {
  }

  /** |x / m| <= k for |x| <= k * m. */
  lemma DividedBound(x: real, k: real, m: real)
    requires m > 0.0 && Abs(x) <= k * m
    ensures Abs(x / m) <= k
  {
    DivCancel(x, m);
    assert Abs(x / m) * m == Abs(x);
  }

  /** x / m has the sign of x for m > 0. */
  lemma DividedSign(x: real, m: real)
    requires m > 0.0
    ensures (x > 0.0 ==> x / m > 0.0) && (x < 0.0 ==> x / m < 0.0) && (x == 0.0 ==> x / m == 0.0)
  {
    DivCancel(x, m);
  }

  /** The part of j / mass along d is the part of j along d over the mass. */
  lemma QuotientAlong(j: Vec, d: Vec, mass: real)
    requires mass > 0.0
    ensures Dot(Quotient(j, mass), d) == Dot(j, d) / mass
  {
    assert (j.x / mass) * d.x + (j.y / mass) * d.y == (j.x * d.x + j.y * d.y) / mass;
  }

  /** An impulse j with a positive part along n, and a part along t bounded by k * mass and against
      tv, changes the velocity of a mass the same way, with the bound k. */
  lemma KickOverMass(j: Vec, n: Vec, t: Vec, mass: real, k: real, tv: real)
    requires mass > 0.0 && Dot(j, n) > 0.0 && Abs(Dot(j, t)) <= k * mass
    requires (tv > 0.0 ==> Dot(j, t) < 0.0) && (tv < 0.0 ==> Dot(j, t) > 0.0) && (tv == 0.0 ==> Dot(j, t) == 0.0)
    ensures var dv := Quotient(j, mass);
      Dot(dv, n) > 0.0 && Abs(Dot(dv, t)) <= k &&
      (tv > 0.0 ==> Dot(dv, t) < 0.0) && (tv < 0.0 ==> Dot(dv, t) > 0.0) && (tv == 0.0 ==> Dot(dv, t) == 0.0)
  {
    QuotientAlong(j, n, mass);
    QuotientAlong(j, t, mass);
    DividedSign(Dot(j, n), mass);
    DividedSign(Dot(j, t), mass);
    DividedBound(Dot(j, t), k, mass);
  }

  /** The contact impulse at a contact whose point approaches along a unit normal: a positive part
      along the normal, and a tangential part bounded by gravity * friction * mass and against the
      contact point's tangential velocity. */
  lemma ContactImpulseParts(m: Motion, mass: real, inertia: real, c: Contact)
    requires mass > 0.0 && inertia > 0.0 && LengthSquare(c.normal) == 1.0
    requires Dot(PointVelocity(c.point, m.pos, m.vel, m.angularVel), c.normal) < 0.0
    ensures var j := ContactImpulse(m, mass, inertia, c);
      var tv := Dot(PointVelocity(c.point, m.pos, m.vel, m.angularVel), Tangent(c.normal));
      Dot(j, c.normal) > 0.0 && Abs(Dot(j, Tangent(c.normal))) <= (GravityAccel * Friction) * mass &&
      (tv > 0.0 ==> Dot(j, Tangent(c.normal)) < 0.0) &&
      (tv < 0.0 ==> Dot(j, Tangent(c.normal)) > 0.0) &&
      (tv == 0.0 ==> Dot(j, Tangent(c.normal)) == 0.0)
  {
    var n := c.normal;
    var rr := Minus(c.point, m.pos);
    var pointVel := PointVelocity(c.point, m.pos, m.vel, m.angularVel);
    var tangentVel := Dot(pointVel, Tangent(n));
    var a := ImpulseMagnitude(Damping, Dot(pointVel, n), mass, inertia, Cross(rr, n));
    var f := FrictionImpulse(tangentVel, GravityAccel, Friction, mass, inertia, LengthSquare(rr));
    ImpulsePushesOut(Damping, Dot(pointVel, n), mass, inertia, Cross(rr, n));
    FrictionIsBounded(tangentVel, GravityAccel, Friction, mass, inertia, LengthSquare(rr));
    assert GravityAccel * mass * Friction == (GravityAccel * Friction) * mass;
    AlongNormal(n, a, f);
  }

  /** After a contact the body stands pushed out, keeps its rotation, and its velocity has changed
      by the contact impulse over its mass. */
  lemma CollidedMotion(m: Motion, mass: real, inertia: real, c: Contact)
    requires mass > 0.0 && inertia > 0.0 && ContactImpulse(m, mass, inertia, c) != Zero
    ensures var r := Collided(m, false, mass, inertia, Some(c));
      r.pos == Plus(m.pos, Scale(c.normal, c.overlap)) && r.rotation == m.rotation &&
      Minus(r.vel, m.vel) == Quotient(ContactImpulse(m, mass, inertia, c), mass)
  {
    var j := ContactImpulse(m, mass, inertia, c);
    var pushed := Motion(Plus(m.pos, Scale(c.normal, c.overlap)), m.vel, m.rotation, m.angularVel);
    var r := Impulsed(pushed, false, mass, inertia, j, c.point);
    assert Collided(m, false, mass, inertia, Some(c)) == r;
    assert Minus(r.vel, m.vel) == Quotient(j, mass);
  }

  /** The response to a contact whose point approaches along a unit normal: the body moves out by
      normal * overlap, keeps its rotation, and its velocity gains a positive part along the
      normal; the tangential part changes by at most gravity * friction, against the tangential
      velocity of the contact point and not at all without one. */
  lemma ContactResponse(m: Motion, mass: real, inertia: real, c: Contact)
    requires mass > 0.0 && inertia > 0.0 && LengthSquare(c.normal) == 1.0
    requires Dot(PointVelocity(c.point, m.pos, m.vel, m.angularVel), c.normal) < 0.0
    ensures var r := Collided(m, false, mass, inertia, Some(c));
      var dv := Minus(r.vel, m.vel);
      var tangentVel := Dot(PointVelocity(c.point, m.pos, m.vel, m.angularVel), Tangent(c.normal));
      r.pos == Plus(m.pos, Scale(c.normal, c.overlap)) && r.rotation == m.rotation &&
      Dot(dv, c.normal) > 0.0 &&
      Abs(Dot(dv, Tangent(c.normal))) <= GravityAccel * Friction &&
      (tangentVel > 0.0 ==> Dot(dv, Tangent(c.normal)) < 0.0) &&
      (tangentVel < 0.0 ==> Dot(dv, Tangent(c.normal)) > 0.0) &&
      (tangentVel == 0.0 ==> Dot(dv, Tangent(c.normal)) == 0.0)
  {
    ContactImpulseParts(m, mass, inertia, c);
    assert Dot(Zero, c.normal) == 0.0;
    CollidedMotion(m, mass, inertia, c);
    KickOverMass(ContactImpulse(m, mass, inertia, c), c.normal, Tangent(c.normal), mass, GravityAccel * Friction,
      Dot(PointVelocity(c.point, m.pos, m.vel, m.angularVel), Tangent(c.normal)));
  }

  /** A contact that checkCollision reports against the ground always draws this response: the
      normal is vertical and the body's velocity gains a positive part along it. */
  lemma GroundResponse(m: Motion, radiusSq: real, mass: real, inertia: real, groundLevel: int, painted: Painting)
    requires radiusSq >= 0.0 && mass > 0.0 && inertia > 0.0
    requires Outcome(BodyState(false, radiusSq, m.pos, m.vel, m.angularVel), Ground(groundLevel), painted).Some?
    ensures var c := Outcome(BodyState(false, radiusSq, m.pos, m.vel, m.angularVel), Ground(groundLevel), painted).value;
      var r := Collided(m, false, mass, inertia, Some(c));
      c.normal.x == 0.0 && r.pos == Plus(m.pos, Scale(c.normal, c.overlap)) &&
      Dot(Minus(r.vel, m.vel), c.normal) > 0.0
  {
    var b := BodyState(false, radiusSq, m.pos, m.vel, m.angularVel);
    ContactProperties(b, Ground(groundLevel), painted);
    GroundNormalIsVertical(b, groundLevel, painted);
    AxisIsUnit(Outcome(b, Ground(groundLevel), painted).value.normal);
    ContactResponse(m, mass, inertia, Outcome(b, Ground(groundLevel), painted).value);
  }

  /** The rotation wrap of `update`: at most one correction by 2 * PI. */
  function Wrap(rotation: real): real {
    var a := if rotation > Pi + Tolerance then rotation - 2.0 * Pi else rotation;
    if a < -Pi - Tolerance then a + 2.0 * Pi else a
  }

  /** The wrap shifts by at most one turn, keeps a rotation already in range, and brings every
      rotation within three half-turns of 0 into [-PI - tolerance, PI + tolerance]. */
  lemma WrapProperties(rotation: real)
    ensures Wrap(rotation) == rotation || Wrap(rotation) == rotation - 2.0 * Pi || Wrap(rotation) == rotation + 2.0 * Pi
    ensures -Pi - Tolerance <= rotation <= Pi + Tolerance ==> Wrap(rotation) == rotation
    ensures -3.0 * Pi <= rotation <= 3.0 * Pi ==> -Pi - Tolerance <= Wrap(rotation) <= Pi + Tolerance
  {
  }

  /** How a body is drawn into the collision test's image: the pixels it covers, in world
      coordinates, for its image and centre drawn at its position and rotation. */
  datatype Pose = Pose(image: Raster, centre: Option<Vec>, pos: Vec, rotation: real)

  type Renderer = Pose -> Painting

  /** The collision test against the ground for a body in motion m. */
  ghost function GroundContact(m: Motion, f: Form, groundLevel: int, render: Renderer): Option<Contact>
    requires f.radiusSq >= 0.0
  {
    Outcome(BodyState(f.empty, f.radiusSq, m.pos, m.vel, m.angularVel), Ground(groundLevel),
            render(Pose(f.image, f.centre, m.pos, m.rotation)))
  }

  predicate Solid(f: Form) {
    f.radiusSq >= 0.0 && (!f.empty ==> f.mass > 0.0 && f.inertia > 0.0)
  }

  /** The gravity step of `update` followed by the rotation wrap. */
  function Flown(m: Motion, dt: real): Motion {
    var flight := Ballistic(m.pos, m.vel, m.rotation, m.angularVel, GravityAccel, dt);
    Motion(flight.pos, flight.vel, Wrap(flight.rotation), flight.angularVel)
  }

  /** update(dt): the flight, then the ground contact the body makes where it has flown to. */
  ghost function Step(m: Motion, f: Form, dt: real, groundLevel: int, render: Renderer): Motion
    requires Solid(f)
  {
    if f.empty then m
    else Collided(Flown(m, dt), false, f.mass, f.inertia, GroundContact(Flown(m, dt), f, groundLevel, render))
  }

  /** The rotation stays wrapped: a body whose rotation is within [-PI - tolerance, PI + tolerance]
      and that turns by at most PI in a step is there again after the step, whatever contact it
      makes. */
  lemma RotationStaysWrapped(m: Motion, dt: real, mass: real, inertia: real, col: Option<Contact>)
    requires col.Some? ==> mass > 0.0 && inertia > 0.0
    requires -Pi - Tolerance <= m.rotation <= Pi + Tolerance
    requires -Pi <= m.angularVel * dt <= Pi
    ensures var r := Collided(Flown(m, dt), false, mass, inertia, col);
      -Pi - Tolerance <= r.rotation <= Pi + Tolerance &&
      (r.rotation == m.rotation + m.angularVel * dt ||
       r.rotation == m.rotation + m.angularVel * dt - 2.0 * Pi ||
       r.rotation == m.rotation + m.angularVel * dt + 2.0 * Pi)
  {
    var turned := m.rotation + m.angularVel * dt;
    var f := Flown(m, dt);
    assert f.rotation == Wrap(turned);
    CollidedKeepsRotation(f, false, mass, inertia, col);
    assert -3.0 * Pi <= turned <= 3.0 * Pi;
    WrapProperties(turned);
  }

  // ---- World points against the mask

  /** containsPointNoRot as written: the mask at (int)(pos - centre + p). */
  function ContainsAsWritten(pixels: Grid, centre: Vec, pos: Vec, p: Pixel): bool {
    Cell(pixels, Trunc(pos.x - centre.x + p.x as real), Trunc(pos.y - centre.y + p.y as real))
  }

  /** The world point p is drawn from local pixel p - pos + centre (paintAtCoordinate draws the
      image at pos - centre), which is the pixel the test evidently means to read. */
  function ContainsAt(pixels: Grid, centre: Vec, pos: Vec, p: Pixel): bool {
    Cell(pixels, Trunc(p.x as real - pos.x + centre.x), Trunc(p.y as real - pos.y + centre.y))
  }

  lemma TruncWhole(k: int)
    ensures Trunc(k as real) == k
  {
  }

  /** For a body at rest where it was built, at its own centre of mass, both readings agree and
      test the mask at p itself. */
  lemma ContainsAtRest(pixels: Grid, centre: Vec, p: Pixel)
    ensures ContainsAt(pixels, centre, centre, p) == Cell(pixels, p.x, p.y)
    ensures ContainsAsWritten(pixels, centre, centre, p) == Cell(pixels, p.x, p.y)
  {
    assert p.x as real - centre.x + centre.x == p.x as real;
    assert p.y as real - centre.y + centre.y == p.y as real;
    assert centre.x - centre.x + p.x as real == p.x as real;
    assert centre.y - centre.y + p.y as real == p.y as real;
    TruncWhole(p.x);
    TruncWhole(p.y);
  }

  /** The corrected test moves with the body: a body moved by a whole vector d contains the
      correspondingly moved points, and a body whose centre is a pixel contains exactly the world
      pixels its occupied pixels are drawn at. */
  lemma ContainsMovesWithBody(pixels: Grid, centre: Vec, pos: Vec, p: Pixel, d: Pixel)
    ensures ContainsAt(pixels, centre, Plus(pos, FromPixel(d)), Pixel(p.x + d.x, p.y + d.y)) == ContainsAt(pixels, centre, pos, p)
    ensures Whole(centre.x) && Whole(centre.y) && Whole(pos.x) && Whole(pos.y) ==>
      (ContainsAt(pixels, centre, pos, p) <==>
        Cell(pixels, p.x - pos.x.Floor + centre.x.Floor, p.y - pos.y.Floor + centre.y.Floor))
  {
    assert (p.x + d.x) as real - (pos.x + d.x as real) + centre.x == p.x as real - pos.x + centre.x;
    assert (p.y + d.y) as real - (pos.y + d.y as real) + centre.y == p.y as real - pos.y + centre.y;
    if Whole(centre.x) && Whole(centre.y) && Whole(pos.x) && Whole(pos.y) {
      assert p.x as real - pos.x + centre.x == (p.x - pos.x.Floor + centre.x.Floor) as real;
      assert p.y as real - pos.y + centre.y == (p.y - pos.y.Floor + centre.y.Floor) as real;
      TruncWhole(p.x - pos.x.Floor + centre.x.Floor);
      TruncWhole(p.y - pos.y.Floor + centre.y.Floor);
    }
  }

  /** As written, the test goes the wrong way once the body has moved: a one-pixel body at (0, 0)
      moved one pixel to the right covers world pixel (1, 0), yet the test reports it not there
      and reports (-1, 0) instead. */
  lemma ContainsAsWrittenMovesBackwards()
    ensures !ContainsAsWritten([[true]], Vec(0.0, 0.0), Vec(1.0, 0.0), Pixel(1, 0))
    ensures ContainsAsWritten([[true]], Vec(0.0, 0.0), Vec(1.0, 0.0), Pixel(-1, 0))
    ensures ContainsAt([[true]], Vec(0.0, 0.0), Vec(1.0, 0.0), Pixel(1, 0))
  {
    assert Trunc(1.0 - 0.0 + 1.0) == 2;
    assert Trunc(1.0 - 0.0 + -1.0) == 0;
    assert Trunc(1.0 - 1.0 + 0.0) == 0;
    assert Trunc(0.0 - 0.0 + 0.0) == 0;
  }

  // ---- The body

  class Body {
    var image: Raster
    var w: nat
    var h: nat
    var density: real
    var pos: Vec
    var rotation: real
    var angularVel: real
    var vel: Vec
    var radiusSq: real
    var empty: bool
    var pixels: Grid
    var centre: Option<Vec>
    var mass: real
    var inertia: real
    const interpolator: Interpolator

    function Kinematics(): Motion
      reads this
    {
      Motion(pos, vel, rotation, angularVel)
    }

    function Formed(): Form
      reads this
    {
      Form(image, w, h, density, pixels, empty, centre, mass, inertia, radiusSq)
    }

    /** The derived fields agree with the image, as updateShape leaves them. */
    predicate MassModel()
      reads this
    {
      IsRaster(image, w, h) && pixels == Mask(image, w, h) && empty == (Count(pixels) == 0) &&
      centre == Centre(pixels) && mass == MassOf(pixels, density) &&
      inertia == InertiaOf(pixels, density) && radiusSq == CollisionRadiusSq(pixels)
    }

    /** RigidBody(image, density): the mass model of the image, at rest at its own centre of mass.
        The source copies the centre of mass into the position, which fails for an image without
        a pixel that is not transparent; so such a pixel is required. */
    constructor (img: Raster, width: nat, height: nat, d: real)
      requires IsRaster(img, width, height) && Count(Mask(img, width, height)) > 0
      ensures MassModel() && image == img && w == width && h == height && density == d
      ensures !empty && pos == centre.value && vel == Zero && rotation == 0.0 && angularVel == 0.0
      ensures fresh(interpolator) && interpolator.t == 0.0
    {
      image, w, h, density := img, width, height, d;
      pos, vel, rotation, angularVel := Zero, Zero, 0.0, 0.0;
      radiusSq, empty, pixels, centre, mass, inertia := 0.0, true, [], None, 0.0, 0.0;
      interpolator := new Interpolator();
      new;
      Reshape();
      pos := centre.value;
      vel := Vec(0.0, 0.0);
    }

    /** RigidBody(image, density, position): the same body placed at `position`. */
    constructor At(img: Raster, width: nat, height: nat, d: real, position: Vec)
      requires IsRaster(img, width, height) && Count(Mask(img, width, height)) > 0
      ensures MassModel() && image == img && w == width && h == height && density == d
      ensures !empty && pos == position && vel == Zero && rotation == 0.0 && angularVel == 0.0
      ensures fresh(interpolator) && interpolator.t == 0.0
    {
      image, w, h, density := img, width, height, d;
      pos, vel, rotation, angularVel := Zero, Zero, 0.0, 0.0;
      radiusSq, empty, pixels, centre, mass, inertia := 0.0, true, [], None, 0.0, 0.0;
      interpolator := new Interpolator();
      new;
      Reshape();
      pos := centre.value;
      vel := Vec(0.0, 0.0);
      pos := position;
    }

    /** The constructor's updateShape, updateMass and updateMomentOfInertia in turn: the last two
        recompute what the first already derived. */
    method Reshape()
      requires IsRaster(image, w, h)
      modifies this
      ensures MassModel()
      ensures image == old(image) && w == old(w) && h == old(h) && density == old(density)
      ensures Kinematics() == old(Kinematics())
    {
      UpdateShape();
      UpdateMass();
      UpdateMomentOfInertia();
      Rederived(pixels, density, centre, mass, inertia, radiusSq);
    }

    /** updateShape: the mask of the image (a pixel is occupied unless its RGB is 0), then the
        mass model. */
    method UpdateShape()
      requires IsRaster(image, w, h)
      modifies this
      ensures MassModel()
      ensures image == old(image) && w == old(w) && h == old(h) && density == old(density)
      ensures Kinematics() == old(Kinematics())
    {
      var grid, n := ReadMask(image, w, h);
      pixels := grid;
      empty := n == 0;
      UpdateMass();
      UpdateMomentOfInertia();
      Rederived(pixels, density, centre, mass, inertia, radiusSq);
    }

    /** updateMass: the centre of gravity is the mean of the occupied pixels and the mass is
        n * density; without pixels, no centre and mass 0. */
    method UpdateMass()
      requires Rectangular(pixels, w, h)
      modifies this
      ensures image == old(image) && w == old(w) && h == old(h) && density == old(density)
      ensures pixels == old(pixels) && empty == old(empty) && inertia == old(inertia) && radiusSq == old(radiusSq)
      ensures centre == Centre(pixels) && mass == MassOf(pixels, density)
      ensures Kinematics() == old(Kinematics())
    {
      var grid, width, height := pixels, w, h;
      var sum := new Vector(0.0, 0.0);
      var n := 0;
      for i := 0 to width
        invariant fresh(sum) && unchanged(this)
        invariant n == CountUpTo(grid, i)
        invariant sum.Value() == Vec(SumUpTo(grid, i, PixelX()), SumUpTo(grid, i, PixelY()))
      {
        for j := 0 to height
          invariant fresh(sum) && unchanged(this)
          invariant n == CountUpTo(grid, i) + ColumnCount(grid[i], j)
          invariant sum.Value() == Vec(SumUpTo(grid, i, PixelX()) + ColumnSum(grid[i], i, j, PixelX()),
                                       SumUpTo(grid, i, PixelY()) + ColumnSum(grid[i], i, j, PixelY()))
        {
          if grid[i][j] {
            n := n + 1;
            sum := sum.AddXY(i as real, j as real);
          }
        }
      }
      if n == 0 {
        centre := None;
        mass := 0.0;
      } else {
        sum := sum.Divide(n as real);
        centre := Some(sum.Value());
        mass := n as real * density;
      }
    }

    /** updateMomentOfInertia: sum / n * mass for the sum of squared distances to the centre, and
        the largest squared distance as the squared collision radius; both 0 without pixels. */
    method UpdateMomentOfInertia()
      requires Rectangular(pixels, w, h) && (Count(pixels) > 0 ==> centre.Some?)
      modifies this
      ensures image == old(image) && w == old(w) && h == old(h) && density == old(density)
      ensures pixels == old(pixels) && empty == old(empty) && centre == old(centre) && mass == old(mass)
      ensures Count(pixels) == 0 ==> inertia == 0.0 && radiusSq == 0.0
      ensures Count(pixels) > 0 ==>
        inertia == InertiaSum(pixels, centre.value) / Count(pixels) as real * mass &&
        radiusSq == RadiusSq(pixels, centre.value)
      ensures Kinematics() == old(Kinematics())
    {
      var grid, width, height := pixels, w, h;
      var cg := if centre.Some? then centre.value else Zero;
      EmptyIffNoCell(grid);
      var sum := 0.0;
      var n := 0;
      var r2 := 0.0;
      for i := 0 to width
        invariant n == CountUpTo(grid, i)
        invariant sum == SumUpTo(grid, i, DistanceSquares(cg))
        invariant r2 == MaxUpTo(grid, i, cg)
      {
        for j := 0 to height
          invariant n == CountUpTo(grid, i) + ColumnCount(grid[i], j)
          invariant sum == SumUpTo(grid, i, DistanceSquares(cg)) + ColumnSum(grid[i], i, j, DistanceSquares(cg))
          invariant r2 == ColumnMax(grid[i], i, j, cg, MaxUpTo(grid, i, cg))
        {
          if grid[i][j] {
            n := n + 1;
            var delta := Minus(cg, Vec(i as real, j as real));
            var distSq := LengthSquare(delta);
            sum := sum + distSq;
            if distSq > r2 {
              r2 := distSq;
            }
          }
        }
      }
      if n == 0 {
        inertia := 0.0;
        radiusSq := 0.0;
      } else {
        inertia := sum / n as real * mass;
        radiusSq := r2;
      }
    }

    /** applyImpulse(impulse, origin). */
    method ApplyImpulse(impulse: Vec, origin: Vec)
      requires Kicks(empty, impulse) ==> mass > 0.0 && inertia > 0.0
      modifies this
      ensures Formed() == old(Formed())
      ensures Kinematics() == Impulsed(old(Kinematics()), empty, mass, inertia, impulse, origin)
    {
      if empty {
        return;
      }
      if impulse == Zero {
        return;
      }
      var r := Minus(origin, pos);
      var torque := Cross(r, impulse);
      angularVel := angularVel + torque / inertia;
      vel := Plus(vel, Vec(impulse.x / mass, impulse.y / mass));
    }

    /** getPointVelocity: calcPointVelocity about the body's position. */
    function PointVelocityAt(point: Vec): Vec
      reads this
    {
      PointVelocity(point, pos, vel, angularVel)
    }

    /** handleCollision(col). */
    method HandleCollision(col: Option<Contact>)
      requires !empty && col.Some? ==> mass > 0.0 && inertia > 0.0
      modifies this
      ensures Formed() == old(Formed())
      ensures Kinematics() == Collided(old(Kinematics()), empty, mass, inertia, col)
    {
      if empty {
        return;
      }
      if col.Some? {
        var c := col.value;
        ghost var m0 := Kinematics();
        var tangent := Vec(-c.normal.y, c.normal.x);
        var r := Minus(c.point, pos);
        var pointVel := PointVelocityAt(c.point);
        var tangentVel := Dot(pointVel, tangent);
        pos := Plus(pos, Scale(c.normal, c.overlap));
        var tmp := Cross(r, c.normal);
        assert tmp * tmp >= 0.0;
        assert pointVel == PointVelocity(c.point, m0.pos, m0.vel, m0.angularVel);
        var impulseAbs := -(1.0 + Damping) * Dot(pointVel, c.normal) / InverseMass(mass, inertia, tmp * tmp);
        assert impulseAbs == ImpulseMagnitude(Damping, Dot(pointVel, c.normal), mass, inertia, tmp);
        var impulse := Scale(c.normal, impulseAbs);
        var frictionForce := GravityAccel * mass * Friction * -Signum(tangentVel);
        var rSq := LengthSquare(r);
        var frictionForceToStop := -tangentVel / InverseMass(mass, inertia, rSq);
        if Abs(frictionForce) > Abs(frictionForceToStop) {
          frictionForce := frictionForceToStop;
        }
        assert frictionForce == FrictionImpulse(tangentVel, GravityAccel, Friction, mass, inertia, rSq);
        impulse := Plus(impulse, Scale(tangent, frictionForce));
        assert impulse == ContactImpulse(m0, mass, inertia, c);
        ApplyImpulse(impulse, c.point);
      }
    }

    /** The ground contact checkCollision reports for this body. */
    ghost function CurrentContact(groundLevel: int, render: Renderer): Option<Contact>
      reads this
      requires radiusSq >= 0.0
    {
      GroundContact(Kinematics(), Formed(), groundLevel, render)
    }

    /** handleCollisions: the contact with the ground, handled. */
    method HandleCollisions(groundLevel: int, render: Renderer)
      requires Solid(Formed())
      modifies this
      ensures Formed() == old(Formed())
      ensures Kinematics() == Collided(old(Kinematics()), empty, mass, inertia, old(CurrentContact(groundLevel, render)))
    {
      if empty {
        return;
      }
      var col := CheckCollision(BodyState(empty, radiusSq, pos, vel, angularVel), Ground(groundLevel),
                                render(Pose(image, centre, pos, rotation)));
      HandleCollision(col);
    }

    /** update(dt): nothing for an empty body; otherwise one gravity step of the interpolator,
        the rotation wrap and the ground contact. */
    method Update(dt: real, groundLevel: int, render: Renderer)
      requires Solid(Formed())
      modifies this, interpolator
      ensures Formed() == old(Formed())
      ensures Kinematics() == Step(old(Kinematics()), Formed(), dt, groundLevel, render)
      ensures interpolator.t == old(interpolator.t) + (if empty then 0.0 else dt)
    {
      if empty {
        return;
      }
      pos, vel, rotation, angularVel := Gravity.Update(interpolator, GravityAccel, pos, vel, rotation, angularVel, dt);
      if rotation > Pi + Tolerance {
        rotation := rotation - 2.0 * Pi;
      }
      if rotation < -Pi - Tolerance {
        rotation := rotation + 2.0 * Pi;
      }
      assert Kinematics() == Flown(old(Kinematics()), dt);
      HandleCollisions(groundLevel, render);
    }

    /** containsPointNoRot(p) as written. The source reads the centre of mass, which an empty body
        does not have. */
    function ContainsPointNoRot(p: Pixel): bool
      reads this
      requires centre.Some?
    {
      ContainsAsWritten(pixels, centre.value, pos, p)
    }

    /** The test as evidently meant, reading the pixel the world point is drawn from. */
    function ContainsWorldPoint(p: Pixel): bool
      reads this
      requires centre.Some?
    {
      ContainsAt(pixels, centre.value, pos, p)
    }
  }
}
