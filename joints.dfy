/** Spring joints between two rigid bodies (physics/entities/SpringJoint.java and its subclasses
    StiffSpringJoint, LooseSpringJoint and AngularSpringJoint).
    A joint holds two bodies together at an attachment point. Each step integrates the motion of
    both bodies under a damped spring force with the RK4 integrator and writes back only their
    velocities and angular velocities. The joint breaks, for good, once the attachment points drift
    farther apart than the stretch limit of its tier, or, for an angular joint, once the bodies turn
    too far from the relative angle they were attached at.
    The subclasses differ only in their coefficients and, for the angular joint, in derivatives1;
    the model gives every joint a `Kind` and dispatches on it. */
module Joints {
  import opened Vectors
  import opened Shape
  import opened Rk4
  import opened RigidBody

  // ---- Coefficient tiers

  /** getSpringCoefficient, getDampingCoefficient and getStretchLimit. */
  datatype Tier = Tier(spring: real, damping: real, stretchLimit: real)

  /** StiffSpringJoint, which AngularSpringJoint extends. */
  const Stiff: Tier := Tier(600000.0, 2000.0, 35.0)

  /** LooseSpringJoint. */
  const Loose: Tier := Tier(300000.0, 10000.0, 30.0)

  /** AngularSpringJoint's getAngularSpringCoefficient (4*10E8), getAngularDampingCoefficient
      (5*10E2) and getAngularStretchLimit (pi / 8). */
  const AngularSpring: real := 4000000000.0
  const AngularDamping: real := 5000.0
  const AngularLimit: real := Pi / 8.0

  datatype Kind = StiffJoint | LooseJoint | AngularJoint

  function TierOf(kind: Kind): Tier {
    if kind == LooseJoint then Loose else Stiff
  }

  /** deltaPoint.length() > getStretchLimit(), compared on squared lengths. */
  predicate Stretched(delta: Vec, limit: real) {
    LengthSquare(delta) > limit * limit
  }

  lemma SquareOrder(dist: real, limit: real)
    requires dist >= 0.0 && limit > 0.0
    ensures dist * dist > limit * limit <==> dist > limit
  {
    if dist > limit {
      assert dist * dist > limit * dist;
      assert limit * dist >= limit * limit;
    } else {
      assert dist * dist <= limit * dist;
      assert limit * dist <= limit * limit;
    }
  }

  /** A stiff or angular joint breaks exactly when its attachment points are more than 35 apart,
      a loose joint when they are more than 30 apart. */
  lemma BreakDistance(kind: Kind, delta: Vec, dist: real)
    requires dist >= 0.0 && dist * dist == LengthSquare(delta)
    ensures Stretched(delta, TierOf(kind).stretchLimit) <==> dist > (if kind == LooseJoint then 30.0 else 35.0)
  {
    SquareOrder(dist, TierOf(kind).stretchLimit);
  }

  // ---- Attachment points

  /** A radius vector turned by the rotation whose cosine and sine are c and s. */
  function Turn(r: Vec, c: real, s: real): Vec {
    Vec(c * r.x + s * r.y, -s * r.x + c * r.y)
  }

  /** Turning keeps lengths. */
  lemma TurnKeepsLength(r: Vec, c: real, s: real)
    requires c * c + s * s == 1.0
    ensures LengthSquare(Turn(r, c, s)) == LengthSquare(r)
  {
    var t := Turn(r, c, s);
    assert t.x * t.x + t.y * t.y == (c * c + s * s) * (r.x * r.x + r.y * r.y);
  }

  /** updateAttachmentPoints for one body: its centre of mass plus its radius vector turned by
      its rotation. */
  function AttachPoint(centre: Vec, radius: Vec, rotation: real, trig: Trig): Vec {
    Plus(centre, Turn(radius, trig.cos(rotation), trig.sin(rotation)))
  }

  /** Every attachment point lies at the length of its radius vector from the centre of mass. */
  lemma AttachPointDistance(centre: Vec, radius: Vec, rotation: real, trig: Trig)
    requires UnitCircle(trig)
    ensures LengthSquare(Minus(AttachPoint(centre, radius, rotation, trig), centre)) == LengthSquare(radius)
  {
    var t := Turn(radius, trig.cos(rotation), trig.sin(rotation));
    assert Minus(Plus(centre, t), centre) == t;
    TurnKeepsLength(radius, trig.cos(rotation), trig.sin(rotation));
  }

  /** Unturned bodies place the ends of a freshly attached joint on the attachment point itself,
      so the two ends coincide and the joint is not stretched. */
  lemma AttachedEndsCoincide(pos1: Vec, pos2: Vec, point: Vec, trig: Trig)
    requires trig.cos(0.0) == 1.0 && trig.sin(0.0) == 0.0
    ensures AttachPoint(pos1, Minus(point, pos1), 0.0, trig) == point
    ensures AttachPoint(pos2, Minus(point, pos2), 0.0, trig) == point
    ensures LengthSquare(Minus(AttachPoint(pos1, Minus(point, pos1), 0.0, trig), AttachPoint(pos2, Minus(point, pos2), 0.0, trig))) == 0.0
  {
    assert Turn(Minus(point, pos1), 1.0, 0.0) == Minus(point, pos1);
    assert Turn(Minus(point, pos2), 1.0, 0.0) == Minus(point, pos2);
    assert Minus(point, point) == Zero;
  }

  // ---- The derivative functions of SpringInterpolatorRK4

  /** What the derivative functions read besides the states: the tier, the radius vectors, and the
      bodies' positions, masses and moments of inertia (fixed while a step integrates), and the
      trigonometric functions. */
  datatype Rig = Rig(tier: Tier, radius1: Vec, radius2: Vec, pos1: Vec, pos2: Vec,
                     mass1: real, mass2: real, inertia1: real, inertia2: real, trig: Trig)

  /** Bodies a joint step can divide by. */
  predicate Massive(rig: Rig) {
    rig.mass1 > 0.0 && rig.mass2 > 0.0 && rig.inertia1 > 0.0 && rig.inertia2 > 0.0
  }

  /** The four slots of a joint step: the linear motions of body 1 and body 2, then their angular
      motions in the x components. */
  predicate JointShaped(s: seq<Slot>) {
    |s| == 4 && Shaped(s)
  }

  function JointStates(b1: Motion, b2: Motion): (r: seq<Slot>)
    ensures JointShaped(r)
  {
    [NewState([b1.pos, b1.vel]), NewState([b2.pos, b2.vel]),
     NewState([Vec(b1.rotation, 0.0), Vec(b1.angularVel, 0.0)]),
     NewState([Vec(b2.rotation, 0.0), Vec(b2.angularVel, 0.0)])]
  }

  /** The ends of the joint for the probed states. */
  function End1(s: seq<Slot>, rig: Rig): Vec
    requires JointShaped(s)
  {
    AttachPoint(s[0][0], rig.radius1, s[2][0].x, rig.trig)
  }

  function End2(s: seq<Slot>, rig: Rig): Vec
    requires JointShaped(s)
  {
    AttachPoint(s[1][0], rig.radius2, s[3][0].x, rig.trig)
  }

  /** deltaPoint. */
  function Delta(s: seq<Slot>, rig: Rig): Vec
    requires JointShaped(s)
  {
    Minus(End1(s, rig), End2(s, rig))
  }

  /** The spring breaks at these states. */
  predicate LinearBreak(s: seq<Slot>, rig: Rig)
    requires JointShaped(s)
  {
    Stretched(Delta(s, rig), rig.tier.stretchLimit)
  }

  /** force2 = springCoef * deltaPoint + dampingCoef * deltaVelocity, the force on body 2. */
  function SpringForce(s: seq<Slot>, rig: Rig): Vec
    requires JointShaped(s)
  {
    var e1, e2 := End1(s, rig), End2(s, rig);
    var dv := Minus(PointVelocity(e1, s[0][0], s[0][1], s[2][1].x), PointVelocity(e2, s[1][0], s[1][1], s[3][1].x));
    Plus(Scale(Delta(s, rig), rig.tier.spring), Scale(dv, rig.tier.damping))
  }

  /** calcAngularAcceleration: the torque of a force at an end about the body's position, over
      the body's moment of inertia. */
  function AngularAcceleration(force: Vec, end: Vec, pos: Vec, inertia: real): real
    requires inertia != 0.0
  {
    Cross(Minus(end, pos), force) / inertia
  }

  /** The accelerations of the two bodies under force2 on body 2 at end2 and its reaction
      force1 = -force2 on body 1 at end1: Newton's second law for each body, linear and angular. */
  function Accelerations(force2: Vec, end1: Vec, end2: Vec, rig: Rig): (r: seq<Vec>)
    requires Massive(rig)
    ensures |r| == NValues
    ensures Scale(r[0], rig.mass1) == Neg(force2) && Scale(r[1], rig.mass2) == force2
    ensures r[2].x * rig.inertia1 == Cross(Minus(end1, rig.pos1), Neg(force2)) && r[2].y == 0.0
    ensures r[3].x * rig.inertia2 == Cross(Minus(end2, rig.pos2), force2) && r[3].y == 0.0
    ensures forall k :: 4 <= k < NValues ==> r[k] == Zero
  {
    var force1 := Neg(force2);
    DivCancel(Cross(Minus(end1, rig.pos1), force1), rig.inertia1);
    DivCancel(Cross(Minus(end2, rig.pos2), force2), rig.inertia2);
    VectorArray([Quotient(force1, rig.mass1), Quotient(force2, rig.mass2),
                 Vec(AngularAcceleration(force1, end1, rig.pos1, rig.inertia1), 0.0),
                 Vec(AngularAcceleration(force2, end2, rig.pos2, rig.inertia2), 0.0)])
  }

  /** SpringInterpolatorRK4.derivatives1: nothing once the spring is overstretched; otherwise
      the accelerations under the spring force. */
  function SpringDerivatives(s: seq<Slot>, rig: Rig): (r: seq<Vec>)
    requires JointShaped(s) && Massive(rig)
    ensures |r| == NValues
  {
    if LinearBreak(s, rig) then ZeroArray()
    else Accelerations(SpringForce(s, rig), End1(s, rig), End2(s, rig), rig)
  }

  /** The linear accelerations balance, m1 * a1 + m2 * a2 = 0, whether or not the spring breaks;
      a broken spring answers all-zero derivatives. */
  lemma SpringMomentumBalance(s: seq<Slot>, rig: Rig)
    requires JointShaped(s) && Massive(rig)
    ensures var d := SpringDerivatives(s, rig);
      Plus(Scale(d[0], rig.mass1), Scale(d[1], rig.mass2)) == Zero
    ensures LinearBreak(s, rig) ==> forall k :: 0 <= k < NValues ==> SpringDerivatives(s, rig)[k] == Zero
  {
    if LinearBreak(s, rig) {
      ScaleZero(rig.mass1);
      ScaleZero(rig.mass2);
      PlusZero(Zero);
    } else {
      var f := SpringForce(s, rig);
      var d := Accelerations(f, End1(s, rig), End2(s, rig), rig);
      assert Plus(Neg(f), f) == Zero;
      assert Plus(Scale(d[0], rig.mass1), Scale(d[1], rig.mass2)) == Zero;
    }
  }

  // ---- calcRelativeAngle

  /** The first loop of calcRelativeAngle: whole turns added while below -pi - 1e-6. */
  function TurnUp(angle: real): real
    decreases (-Pi - Tolerance - angle).Floor
  {
    if angle < -Pi - Tolerance then TurnUp(angle + 2.0 * Pi) else angle
  }

  /** The second loop: whole turns taken away while above pi + 1e-6. */
  function TurnDown(angle: real): real
    decreases (angle - Pi - Tolerance).Floor
  {
    if angle > Pi + Tolerance then TurnDown(angle - 2.0 * Pi) else angle
  }

  /** calcRelativeAngle(angle1, angle2). */
  function RelativeAngle(angle1: real, angle2: real): real {
    TurnDown(TurnUp(angle1 - angle2))
  }

  /** An angle plus k whole turns. */
  function Turns(angle: real, k: int): real {
    angle + k as real * (2.0 * Pi)
  }

  lemma {:induction false} TurnUpResult(angle: real) returns (k: nat)
    ensures TurnUp(angle) == Turns(angle, k)
    ensures TurnUp(angle) >= -Pi - Tolerance
    ensures angle >= -Pi - Tolerance ==> TurnUp(angle) == angle
    ensures angle < -Pi - Tolerance ==> TurnUp(angle) < Pi - Tolerance
    decreases (-Pi - Tolerance - angle).Floor
  {
    if angle < -Pi - Tolerance {
      var k' := TurnUpResult(angle + 2.0 * Pi);
      k := k' + 1;
      assert Turns(angle + 2.0 * Pi, k') == Turns(angle, k);
    } else {
      k := 0;
    }
  }

  lemma {:induction false} TurnDownResult(angle: real) returns (k: nat)
    requires angle >= -Pi - Tolerance
    ensures TurnDown(angle) == Turns(angle, -(k as int))
    ensures -Pi - Tolerance <= TurnDown(angle) <= Pi + Tolerance
    ensures angle <= Pi + Tolerance ==> TurnDown(angle) == angle
    decreases (angle - Pi - Tolerance).Floor
  {
    if angle > Pi + Tolerance {
      var k' := TurnDownResult(angle - 2.0 * Pi);
      k := k' + 1;
      assert Turns(angle - 2.0 * Pi, -(k' as int)) == Turns(angle, -(k as int));
    } else {
      k := 0;
    }
  }

  /** The relative angle is angle1 - angle2 up to whole turns, within [-pi - 1e-6, pi + 1e-6], and
      is angle1 - angle2 itself when that is already in range. */
  lemma RelativeAngleRange(angle1: real, angle2: real) returns (k: int)
    ensures var r := RelativeAngle(angle1, angle2);
      -Pi - Tolerance <= r <= Pi + Tolerance && r == Turns(angle1 - angle2, k)
    ensures -Pi - Tolerance <= angle1 - angle2 <= Pi + Tolerance ==> RelativeAngle(angle1, angle2) == angle1 - angle2
  {
    var up := TurnUpResult(angle1 - angle2);
    var down := TurnDownResult(TurnUp(angle1 - angle2));
    k := up as int - down as int;
    assert RelativeAngle(angle1, angle2) == Turns(angle1 - angle2, k);
  }

  /** calcRelativeAngle, with its two loops. */
  method CalcRelativeAngle(angle1: real, angle2: real) returns (angle: real)
    ensures angle == RelativeAngle(angle1, angle2)
    ensures -Pi - Tolerance <= angle <= Pi + Tolerance
  {
    angle := angle1 - angle2;
    while angle < -Pi - Tolerance
      invariant TurnUp(angle) == TurnUp(angle1 - angle2)
      decreases (-Pi - Tolerance - angle).Floor
    {
      angle := angle + 2.0 * Pi;
    }
    while angle > Pi + Tolerance
      invariant angle >= -Pi - Tolerance
      invariant TurnDown(angle) == RelativeAngle(angle1, angle2)
      decreases (angle - Pi - Tolerance).Floor
    {
      angle := angle - 2.0 * Pi;
    }
    var _ := RelativeAngleRange(angle1, angle2);
  }

  // ---- AngularSpringInterpolatorRK4.derivatives1

  /** angleDisplacement: the target angle less the relative angle of the probed rotations. */
  function AngleDisplacement(s: seq<Slot>, targetAngle: real): real
    requires JointShaped(s)
  {
    targetAngle - RelativeAngle(s[2][0].x, s[3][0].x)
  }

  predicate AngularBreak(s: seq<Slot>, targetAngle: real)
    requires JointShaped(s)
  {
    Abs(AngleDisplacement(s, targetAngle)) > AngularLimit
  }

  /** torque = springTorque - dampingTorque with dampingTorque = -relVel * damping, so the damping
      enters with a plus sign. */
  function AngularTorque(s: seq<Slot>, targetAngle: real): real
    requires JointShaped(s)
  {
    var relVel := s[2][1].x - s[3][1].x;
    AngleDisplacement(s, targetAngle) * AngularSpring - (-relVel * AngularDamping)
  }

  /** The spring's derivatives with an angular acceleration of +torque / I1 added to body 1's
      angular slot and -torque / I2 to body 2's: equal and opposite torques, the linear slots kept. */
  function Torqued(base: seq<Vec>, torque: real, rig: Rig): (r: seq<Vec>)
    requires |base| == NValues && Massive(rig)
    ensures |r| == NValues
    ensures r[0] == base[0] && r[1] == base[1] && forall k :: 4 <= k < NValues ==> r[k] == base[k]
    ensures (r[2].x - base[2].x) * rig.inertia1 == torque && r[2].y == base[2].y
    ensures (r[3].x - base[3].x) * rig.inertia2 == -torque && r[3].y == base[3].y
  {
    DivCancel(torque, rig.inertia1);
    DivCancel(-torque, rig.inertia2);
    base[2 := Plus(base[2], Vec(torque / rig.inertia1, 0.0))][3 := Plus(base[3], Vec(-torque / rig.inertia2, 0.0))]
  }

  /** AngularSpringInterpolatorRK4.derivatives1: the spring's derivatives, then nothing at all if
      the bodies turned too far, otherwise the spring's derivatives with the angular spring's
      torques added. */
  function AngularDerivatives(s: seq<Slot>, rig: Rig, targetAngle: real): (r: seq<Vec>)
    requires JointShaped(s) && Massive(rig)
    ensures |r| == NValues
  {
    var base := SpringDerivatives(s, rig);
    if AngularBreak(s, targetAngle) then ZeroArray()
    else Torqued(base, AngularTorque(s, targetAngle), rig)
  }

  /** The linear accelerations of an angular joint balance too; turned too far, it answers
      all-zero derivatives. */
  lemma AngularMomentumBalance(s: seq<Slot>, rig: Rig, targetAngle: real)
    requires JointShaped(s) && Massive(rig)
    ensures var d := AngularDerivatives(s, rig, targetAngle);
      Plus(Scale(d[0], rig.mass1), Scale(d[1], rig.mass2)) == Zero
    ensures AngularBreak(s, targetAngle) ==> forall k :: 0 <= k < NValues ==> AngularDerivatives(s, rig, targetAngle)[k] == Zero
  {
    if AngularBreak(s, targetAngle) {
      ScaleZero(rig.mass1);
      ScaleZero(rig.mass2);
      PlusZero(Zero);
    } else {
      SpringMomentumBalance(s, rig);
    }
  }

  // ---- The joint's integrator

  /** derivatives1 of the interpolator a joint of this kind carries once attached. */
  function Derivatives1(kind: Kind, s: seq<Slot>, rig: Rig, targetAngle: real): (r: seq<Vec>)
    requires JointShaped(s) && Massive(rig)
    ensures |r| == NValues
  {
    if kind == AngularJoint then AngularDerivatives(s, rig, targetAngle) else SpringDerivatives(s, rig)
  }

  /** derivatives0 answers the four velocity slots; derivatives2 keeps the zero default. */
  function JointField(kind: Kind, rig: Rig, targetAngle: real): (f: Field)
    requires Massive(rig)
    ensures Accepts(f, 4)
  {
    Field(
      (s: seq<Slot>, t: real) requires JointShaped(s) => VectorArray([s[0][1], s[1][1], s[2][1], s[3][1]]),
      (s: seq<Slot>, t: real) requires JointShaped(s) && Massive(rig) => Derivatives1(kind, s, rig, targetAngle),
      (s: seq<Slot>, t: real) => ZeroArray())
  }

  /** Every stage moves the positions and rotations at the probed velocities and angular
      velocities, and changes the velocities by the joint's accelerations. */
  lemma JointStage(kind: Kind, rig: Rig, targetAngle: real, ns: seq<Slot>, time: real)
    requires Massive(rig) && JointShaped(ns)
    ensures Accepts(JointField(kind, rig, targetAngle), 4)
    ensures var d := Derive(ns, time, JointField(kind, rig, targetAngle));
      (forall i :: 0 <= i < 4 ==> d[i][0] == ns[i][1]) &&
      (forall i :: 0 <= i < 4 ==> d[i][1] == Derivatives1(kind, ns, rig, targetAngle)[i])
  {
  }

  /** m1 * a + m2 * b = 0. */
  predicate Balanced(a: Vec, b: Vec, m1: real, m2: real) {
    Plus(Scale(a, m1), Scale(b, m2)) == Zero
  }

  /** Each stage of a joint step balances the linear accelerations. */
  lemma StageBalance(kind: Kind, rig: Rig, targetAngle: real, ns: seq<Slot>, time: real)
    requires Massive(rig) && JointShaped(ns)
    ensures Accepts(JointField(kind, rig, targetAngle), 4)
    ensures var d := Derive(ns, time, JointField(kind, rig, targetAngle));
      Balanced(d[0][1], d[1][1], rig.mass1, rig.mass2)
  {
    JointStage(kind, rig, targetAngle, ns, time);
    if kind == AngularJoint {
      AngularMomentumBalance(ns, rig, targetAngle);
    } else {
      SpringMomentumBalance(ns, rig);
    }
  }

  /** All four stages of a joint step balance the linear accelerations. */
  lemma StagesBalance(kind: Kind, rig: Rig, targetAngle: real, s: seq<Slot>, t: real, dt: real)
    requires Massive(rig) && JointShaped(s)
    ensures Wellformed(s, JointField(kind, rig, targetAngle))
    ensures var st := StagesOf(s, t, dt, JointField(kind, rig, targetAngle));
      Balanced(st.a[0][1], st.a[1][1], rig.mass1, rig.mass2) && Balanced(st.b[0][1], st.b[1][1], rig.mass1, rig.mass2) &&
      Balanced(st.c[0][1], st.c[1][1], rig.mass1, rig.mass2) && Balanced(st.d[0][1], st.d[1][1], rig.mass1, rig.mass2)
  {
    var f := JointField(kind, rig, targetAngle);
    var p := Probes(s, t, dt, f);
    ProbeTimes(s, t, dt, f);
    StageBalance(kind, rig, targetAngle, p[0], t);
    StageBalance(kind, rig, targetAngle, p[1], t + dt);
    StageBalance(kind, rig, targetAngle, p[2], t + dt);
    StageBalance(kind, rig, targetAngle, p[3], t + 2.0 * dt);
  }

  lemma BalancedParts(a: Vec, b: Vec, m1: real, m2: real)
    ensures Balanced(a, b, m1, m2) <==> a.x * m1 + b.x * m2 == 0.0 && a.y * m1 + b.y * m2 == 0.0
  {
    var sum := Plus(Scale(a, m1), Scale(b, m2));
    assert sum.x == a.x * m1 + b.x * m2 && sum.y == a.y * m1 + b.y * m2;
  }

  lemma ScaledBalance(p: real, q: real, c: real, m1: real, m2: real)
    requires p * m1 + q * m2 == 0.0
    ensures (p * c) * m1 + (q * c) * m2 == 0.0
  {
    assert (p * c) * m1 + (q * c) * m2 == (p * m1 + q * m2) * c;
  }

  lemma BalancedSum(a1: Vec, a2: Vec, b1: Vec, b2: Vec, m1: real, m2: real)
    requires Balanced(a1, a2, m1, m2) && Balanced(b1, b2, m1, m2)
    ensures Balanced(Plus(a1, b1), Plus(a2, b2), m1, m2)
  {
    BalancedParts(a1, a2, m1, m2);
    BalancedParts(b1, b2, m1, m2);
    var s1, s2 := Plus(a1, b1), Plus(a2, b2);
    assert s1.x * m1 + s2.x * m2 == (a1.x * m1 + a2.x * m2) + (b1.x * m1 + b2.x * m2);
    assert s1.y * m1 + s2.y * m2 == (a1.y * m1 + a2.y * m2) + (b1.y * m1 + b2.y * m2);
    BalancedParts(s1, s2, m1, m2);
  }

  lemma BalancedScale(a1: Vec, a2: Vec, c: real, m1: real, m2: real)
    requires Balanced(a1, a2, m1, m2)
    ensures Balanced(Scale(a1, c), Scale(a2, c), m1, m2)
  {
    BalancedParts(a1, a2, m1, m2);
    ScaledBalance(a1.x, a2.x, c, m1, m2);
    ScaledBalance(a1.y, a2.y, c, m1, m2);
    BalancedParts(Scale(a1, c), Scale(a2, c), m1, m2);
  }

  /** Balanced stage derivatives give balanced velocity changes. */
  lemma CombinedBalance(a1: Vec, b1: Vec, c1: Vec, d1: Vec, a2: Vec, b2: Vec, c2: Vec, d2: Vec,
                        m1: real, m2: real, dt: real)
    requires Balanced(a1, a2, m1, m2) && Balanced(b1, b2, m1, m2) && Balanced(c1, c2, m1, m2) && Balanced(d1, d2, m1, m2)
    ensures Balanced(Scale(Combine(a1, b1, c1, d1), dt), Scale(Combine(a2, b2, c2, d2), dt), m1, m2)
  {
    BalancedSum(b1, b2, c1, c2, m1, m2);
    BalancedScale(Plus(b1, c1), Plus(b2, c2), 2.0, m1, m2);
    var s1, s2 := Scale(Plus(b1, c1), 2.0), Scale(Plus(b2, c2), 2.0);
    BalancedSum(s1, s2, a1, a2, m1, m2);
    BalancedSum(Plus(s1, a1), Plus(s2, a2), d1, d2, m1, m2);
    var t1, t2 := Plus(Plus(s1, a1), d1), Plus(Plus(s2, a2), d2);
    assert Quotient(t1, 6.0) == Scale(t1, 1.0 / 6.0) && Quotient(t2, 6.0) == Scale(t2, 1.0 / 6.0);
    BalancedScale(t1, t2, 1.0 / 6.0, m1, m2);
    BalancedScale(Quotient(t1, 6.0), Quotient(t2, 6.0), dt, m1, m2);
  }

  lemma Increment(v: Vec, k: Vec)
    ensures Minus(Plus(v, k), v) == k
  {
  }

  /** A joint step conserves linear momentum: m1 * (v1' - v1) + m2 * (v2' - v2) = 0, broken
      stages included. */
  lemma MomentumConserved(kind: Kind, rig: Rig, targetAngle: real, b1: Motion, b2: Motion, t: real, dt: real)
    requires Massive(rig)
    ensures Wellformed(JointStates(b1, b2), JointField(kind, rig, targetAngle))
    ensures var r := Integration(JointStates(b1, b2), t, dt, JointField(kind, rig, targetAngle));
      Balanced(Minus(r[0][1], b1.vel), Minus(r[1][1], b2.vel), rig.mass1, rig.mass2)
  {
    var s := JointStates(b1, b2);
    var f := JointField(kind, rig, targetAngle);
    StagesBalance(kind, rig, targetAngle, s, t, dt);
    var st := StagesOf(s, t, dt, f);
    IntegrationAt(s, t, dt, f, 0, 1);
    IntegrationAt(s, t, dt, f, 1, 1);
    CombinedBalance(st.a[0][1], st.b[0][1], st.c[0][1], st.d[0][1], st.a[1][1], st.b[1][1], st.c[1][1], st.d[1][1],
                    rig.mass1, rig.mass2, dt);
    var k1 := Scale(Combine(st.a[0][1], st.b[0][1], st.c[0][1], st.d[0][1]), dt);
    var k2 := Scale(Combine(st.a[1][1], st.b[1][1], st.c[1][1], st.d[1][1]), dt);
    assert s[0][1] == b1.vel && s[1][1] == b2.vel;
    Increment(b1.vel, k1);
    Increment(b2.vel, k2);
  }

  /** derivatives1 breaks the joint at these states. */
  predicate Breaks(kind: Kind, s: seq<Slot>, rig: Rig, targetAngle: real)
    requires JointShaped(s)
  {
    LinearBreak(s, rig) || (kind == AngularJoint && AngularBreak(s, targetAngle))
  }

  // ---- The joint object

  /** The states array SpringInterpolatorRK4.update builds from the two bodies, integrated by
      one step of the interpolator. */
  method StepStates(it: Interpolator, m1: Motion, m2: Motion, dt: real, f: Field) returns (probes: seq<seq<Slot>>, r: seq<Slot>)
    requires Accepts(f, 4)
    modifies it
    ensures it.t == old(it.t) + dt
    ensures r == Integration(JointStates(m1, m2), old(it.t), dt, f)
    ensures probes == Probes(JointStates(m1, m2), old(it.t), dt, f)
  {
    var states := new Slot[4];
    states[0] := NewState([m1.pos, m1.vel]);
    states[1] := NewState([m2.pos, m2.vel]);
    states[2] := NewState([Vec(m1.rotation, 0.0), Vec(m1.angularVel, 0.0)]);
    states[3] := NewState([Vec(m2.rotation, 0.0), Vec(m2.angularVel, 0.0)]);
    assert states[..] == JointStates(m1, m2);
    probes := it.Integrate(states, dt, f);
    r := states[..];
  }

  /** Only the velocities and angular velocities go back to the bodies, body 1 first; the
      positions and rotations are left to the bodies' own gravity step. */
  method WriteBack(b1: Body, b2: Body, r: seq<Slot>)
    requires JointShaped(r)
    modifies b1, b2
    ensures b2.vel == r[1][1] && b2.angularVel == r[3][1].x
    ensures b1 != b2 ==> b1.vel == r[0][1] && b1.angularVel == r[2][1].x
    ensures b1.pos == old(b1.pos) && b1.rotation == old(b1.rotation)
    ensures b2.pos == old(b2.pos) && b2.rotation == old(b2.rotation)
    ensures b1.Formed() == old(b1.Formed()) && b2.Formed() == old(b2.Formed())
  {
    b1.vel := r[0][1];
    b1.angularVel := r[2][1].x;
    b2.vel := r[1][1];
    b2.angularVel := r[3][1].x;
  }

  class Joint {
    const kind: Kind
    var body1: Body?
    var body2: Body?
    var radius1: Vec
    var radius2: Vec
    var attachPoint1: Vec
    var attachPoint2: Vec
    var interpolator: Interpolator
    var broken: bool
    var targetAngle: real

    /** A new joint: intact, not yet attached, with its own interpolator. */
    constructor (k: Kind)
      ensures kind == k && !broken && body1 == null && body2 == null
      ensures fresh(interpolator) && interpolator.t == 0.0
    {
      kind := k;
      body1, body2 := null, null;
      radius1, radius2, attachPoint1, attachPoint2 := Zero, Zero, Zero, Zero;
      broken := false;
      targetAngle := 0.0;
      interpolator := new Interpolator();
    }

    /** isBroken. */
    predicate IsBroken()
      reads this
    {
      broken
    }

    /** destroy: breaking is for good; nothing else changes. */
    method Destroy()
      modifies this
      ensures broken
      ensures body1 == old(body1) && body2 == old(body2) && interpolator == old(interpolator)
      ensures radius1 == old(radius1) && radius2 == old(radius2) && targetAngle == old(targetAngle)
      ensures attachPoint1 == old(attachPoint1) && attachPoint2 == old(attachPoint2)
    {
      broken := true;
    }

    /** attach(body1, body2, attachPointWorld): a missing body breaks the joint at once; otherwise
        the radius vectors run from each body's position to the attachment point. The angular
        joint also records the relative rotation as its target and starts a new interpolator,
        and reads both rotations, so it needs both bodies. */
    method Attach(b1: Body?, b2: Body?, point: Vec)
      requires kind == AngularJoint ==> b1 != null && b2 != null
      modifies this
      ensures body1 == b1 && body2 == b2
      ensures broken == (old(broken) || b1 == null || b2 == null)
      ensures b1 != null && b2 != null ==> radius1 == Minus(point, b1.pos) && radius2 == Minus(point, b2.pos)
      ensures b1 == null || b2 == null ==> radius1 == old(radius1) && radius2 == old(radius2)
      ensures kind == AngularJoint ==>
        targetAngle == b1.rotation - b2.rotation && fresh(interpolator) && interpolator.t == 0.0
      ensures kind != AngularJoint ==> targetAngle == old(targetAngle) && interpolator == old(interpolator)
      ensures attachPoint1 == old(attachPoint1) && attachPoint2 == old(attachPoint2)
    {
      body1 := b1;
      body2 := b2;
      if b1 != null && b2 != null {
        radius1 := Minus(point, b1.pos);
        radius2 := Minus(point, b2.pos);
      } else {
        Destroy();
      }
      if kind == AngularJoint {
        targetAngle := b1.rotation - b2.rotation;
        interpolator := new Interpolator();
      }
    }

    /** updateAttachmentPoints(rotation1, rotation2, centerMass1, centerMass2). */
    method UpdateAttachmentPoints(rotation1: real, rotation2: real, centre1: Vec, centre2: Vec, trig: Trig)
      modifies this
      ensures attachPoint1 == AttachPoint(centre1, radius1, rotation1, trig)
      ensures attachPoint2 == AttachPoint(centre2, radius2, rotation2, trig)
      ensures body1 == old(body1) && body2 == old(body2) && interpolator == old(interpolator)
      ensures radius1 == old(radius1) && radius2 == old(radius2) && targetAngle == old(targetAngle)
      ensures broken == old(broken)
    {
      var sin := trig.sin(rotation1);
      var cos := trig.cos(rotation1);
      var turned1 := Vec(cos * radius1.x + sin * radius1.y, -sin * radius1.x + cos * radius1.y);
      sin := trig.sin(rotation2);
      cos := trig.cos(rotation2);
      var turned2 := Vec(cos * radius2.x + sin * radius2.y, -sin * radius2.x + cos * radius2.y);
      attachPoint1 := Plus(centre1, turned1);
      attachPoint2 := Plus(centre2, turned2);
    }

    /** What the derivative functions read from the joint and its bodies. */
    function RigOf(trig: Trig): Rig
      reads this, body1, body2
      requires body1 != null && body2 != null
    {
      Rig(TierOf(kind), radius1, radius2, body1.pos, body2.pos,
          body1.mass, body2.mass, body1.inertia, body2.inertia, trig)
    }

    /** The side effects of one derivatives1 call on the states s: the attachment points of s, and
        destroy when s overstretches the spring or, for the angular joint, turns it too far. */
    method Derivatives1Effects(s: seq<Slot>, rig: Rig)
      requires JointShaped(s) && rig.radius1 == radius1 && rig.radius2 == radius2
      modifies this
      ensures attachPoint1 == End1(s, rig) && attachPoint2 == End2(s, rig)
      ensures broken == (old(broken) || Breaks(kind, s, rig, targetAngle))
      ensures body1 == old(body1) && body2 == old(body2) && interpolator == old(interpolator)
      ensures radius1 == old(radius1) && radius2 == old(radius2) && targetAngle == old(targetAngle)
    {
      UpdateAttachmentPoints(s[2][0].x, s[3][0].x, s[0][0], s[1][0], rig.trig);
      if Stretched(Minus(attachPoint1, attachPoint2), rig.tier.stretchLimit) {
        Destroy();
      }
      if kind == AngularJoint && AngularBreak(s, targetAngle) {
        Destroy();
      }
    }

    /** The derivatives1 calls of the four RK4 stages, in order. */
    method ProbeEffects(probes: seq<seq<Slot>>, rig: Rig)
      requires |probes| == 4 && forall k :: 0 <= k < 4 ==> JointShaped(probes[k])
      requires rig.radius1 == radius1 && rig.radius2 == radius2
      modifies this
      ensures attachPoint1 == End1(probes[3], rig) && attachPoint2 == End2(probes[3], rig)
      ensures broken == (old(broken) || Breaks(kind, probes[0], rig, targetAngle) || Breaks(kind, probes[1], rig, targetAngle) ||
                         Breaks(kind, probes[2], rig, targetAngle) || Breaks(kind, probes[3], rig, targetAngle))
      ensures body1 == old(body1) && body2 == old(body2) && interpolator == old(interpolator)
      ensures radius1 == old(radius1) && radius2 == old(radius2) && targetAngle == old(targetAngle)
    {
      Derivatives1Effects(probes[0], rig);
      Derivatives1Effects(probes[1], rig);
      Derivatives1Effects(probes[2], rig);
      Derivatives1Effects(probes[3], rig);
    }

    /** SpringInterpolatorRK4.update: one RK4 step of both bodies under the joint, of which only the
        velocities and angular velocities are written back, body 1 first. */
    method Step(dt: real, trig: Trig, f: Field) returns (probes: seq<seq<Slot>>)
      requires body1 != null && body2 != null && Accepts(f, 4)
      modifies this, body1, body2, interpolator
      ensures body1 == old(body1) && body2 == old(body2) && interpolator == old(interpolator)
      ensures radius1 == old(radius1) && radius2 == old(radius2) && targetAngle == old(targetAngle)
      ensures interpolator.t == old(interpolator.t) + dt
      ensures var s := JointStates(old(body1.Kinematics()), old(body2.Kinematics()));
        var r := Integration(s, old(interpolator.t), dt, f);
        probes == Probes(s, old(interpolator.t), dt, f) &&
        body2.vel == r[1][1] && body2.angularVel == r[3][1].x &&
        (body1 != body2 ==> body1.vel == r[0][1] && body1.angularVel == r[2][1].x)
      ensures body1.pos == old(body1.pos) && body1.rotation == old(body1.rotation)
      ensures body2.pos == old(body2.pos) && body2.rotation == old(body2.rotation)
      ensures body1.Formed() == old(body1.Formed()) && body2.Formed() == old(body2.Formed())
      ensures var rig := old(RigOf(trig));
        broken == (old(broken) || Breaks(kind, probes[0], rig, targetAngle) || Breaks(kind, probes[1], rig, targetAngle) ||
                   Breaks(kind, probes[2], rig, targetAngle) || Breaks(kind, probes[3], rig, targetAngle)) &&
        attachPoint1 == End1(probes[3], rig) && attachPoint2 == End2(probes[3], rig)
    {
      var rig := RigOf(trig);
      var r;
      ghost var f1, f2 := body1.Formed(), body2.Formed();
      probes, r := StepStates(interpolator, body1.Kinematics(), body2.Kinematics(), dt, f);
      ProbeEffects(probes, rig);
      assert body1.Formed() == f1 && body2.Formed() == f2;
      WriteBack(body1, body2, r);
    }

    /** update(dt): a step of the interpolator while the joint holds; a broken joint only follows
        its bodies with its attachment points. Breaking is for good, and an intact step conserves
        the linear momentum of two distinct bodies. */
    method Update(dt: real, trig: Trig)
      requires body1 != null && body2 != null
      requires !broken ==> Massive(RigOf(trig))
      modifies this, body1, body2, interpolator
      ensures body1 == old(body1) && body2 == old(body2) && interpolator == old(interpolator)
      ensures radius1 == old(radius1) && radius2 == old(radius2) && targetAngle == old(targetAngle)
      ensures old(broken) ==> broken
      ensures body1.pos == old(body1.pos) && body1.rotation == old(body1.rotation)
      ensures body2.pos == old(body2.pos) && body2.rotation == old(body2.rotation)
      ensures body1.Formed() == old(body1.Formed()) && body2.Formed() == old(body2.Formed())
      ensures old(broken) ==>
        body1.Kinematics() == old(body1.Kinematics()) && body2.Kinematics() == old(body2.Kinematics()) &&
        interpolator.t == old(interpolator.t) &&
        attachPoint1 == AttachPoint(body1.pos, radius1, body1.rotation, trig) &&
        attachPoint2 == AttachPoint(body2.pos, radius2, body2.rotation, trig)
      ensures !old(broken) ==>
        var f := JointField(kind, old(RigOf(trig)), targetAngle);
        var s := JointStates(old(body1.Kinematics()), old(body2.Kinematics()));
        var r := Integration(s, old(interpolator.t), dt, f);
        interpolator.t == old(interpolator.t) + dt &&
        body2.vel == r[1][1] && body2.angularVel == r[3][1].x &&
        (body1 != body2 ==> body1.vel == r[0][1] && body1.angularVel == r[2][1].x)
      ensures !old(broken) ==>
        var rig := old(RigOf(trig));
        var f := JointField(kind, rig, targetAngle);
        var s := JointStates(old(body1.Kinematics()), old(body2.Kinematics()));
        var probes := Probes(s, old(interpolator.t), dt, f);
        broken == (Breaks(kind, probes[0], rig, targetAngle) || Breaks(kind, probes[1], rig, targetAngle) ||
                   Breaks(kind, probes[2], rig, targetAngle) || Breaks(kind, probes[3], rig, targetAngle)) &&
        attachPoint1 == End1(probes[3], rig) && attachPoint2 == End2(probes[3], rig)
      ensures !old(broken) && body1 != body2 ==>
        Plus(Scale(Minus(body1.vel, old(body1.vel)), body1.mass), Scale(Minus(body2.vel, old(body2.vel)), body2.mass)) == Zero
    {
      if !broken {
        ghost var rig := RigOf(trig);
        ghost var m1, m2 := body1.Kinematics(), body2.Kinematics();
        ghost var t0 := interpolator.t;
        var probes := Step(dt, trig, JointField(kind, RigOf(trig), targetAngle));
        MomentumConserved(kind, rig, targetAngle, m1, m2, t0, dt);
      } else {
        UpdateAttachmentPoints(body1.rotation, body2.rotation, body1.pos, body2.pos, trig);
      }
    }

    /** Update and nothing more, under the part of its contract a pass over many joints uses:
        the joint keeps its bodies, never mends, moves and reshapes neither body, and a broken
        joint leaves both bodies' motions alone. */
    method Advance(dt: real, trig: Trig)
      requires body1 != null && body2 != null
      requires !broken ==> Massive(RigOf(trig))
      modifies this, body1, body2, interpolator
      ensures body1 == old(body1) && body2 == old(body2) && interpolator == old(interpolator)
      ensures old(broken) ==> broken
      ensures body1.pos == old(body1.pos) && body1.rotation == old(body1.rotation)
      ensures body2.pos == old(body2.pos) && body2.rotation == old(body2.rotation)
      ensures body1.Formed() == old(body1.Formed()) && body2.Formed() == old(body2.Formed())
      ensures old(broken) ==> body1.Kinematics() == old(body1.Kinematics()) && body2.Kinematics() == old(body2.Kinematics())
    {
      Update(dt, trig);
    }
  }
}
