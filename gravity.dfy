/** Free flight of one rigid body (physics/GravityInterpolatorRK4.java): the RK4 integrator applied
    to two slots, slot 0 holding position and velocity, slot 1 holding rotation and angular velocity
    in the x component of its two vectors. */
module Gravity {
  import opened Vectors
  import opened Rk4

  /** derivatives0 is (velocity, angular velocity), derivatives1 is (gravity, no angular
      acceleration); derivatives2 is the zero default. */
  function GravityField(g: real): (f: Field)
    ensures Accepts(f, 2)
  {
    Field(
      (s: seq<Slot>, t: real) requires |s| >= 2 && |s[0]| >= 2 && |s[1]| >= 2 => VectorArray([s[0][1], s[1][1]]),
      (s: seq<Slot>, t: real) => VectorArray([Vec(0.0, g), Zero]),
      (s: seq<Slot>, t: real) => ZeroArray())
  }

  /** The two states `update` fills from the body. */
  function BodyStates(pos: Vec, vel: Vec, rotation: real, angularVel: real): (r: seq<Slot>)
    ensures Shaped(r) && |r| == 2
  {
    [NewState([pos, vel]), NewState([Vec(rotation, 0.0), Vec(angularVel, 0.0)])]
  }

  /** Where uniform gravity takes a body in time dt, in closed form. */
  datatype Flight = Flight(pos: Vec, vel: Vec, rotation: real, angularVel: real)

  function Ballistic(pos: Vec, vel: Vec, rotation: real, angularVel: real, g: real, dt: real): Flight {
    Flight(Drift(pos, vel, g, dt),
           Kick(vel, g, dt),
           Turned(rotation, angularVel, dt),
           angularVel)
  }

  /** A step of length zero leaves the body where it was. */
  lemma ZeroStepKeepsBody(pos: Vec, vel: Vec, rotation: real, angularVel: real, g: real)
    ensures Ballistic(pos, vel, rotation, angularVel, g, 0.0) == Flight(pos, vel, rotation, angularVel)
  {
  }

  lemma FieldAccepts(g: real)
    ensures Accepts(GravityField(g), 2)
  {
  }

  /** One `evaluate` call of GravityField: the velocities of the advanced states, and gravity. */
  lemma EvaluateGravity(states: seq<Slot>, time: real, h: real, derivs: seq<Slot>, g: real)
    requires Shaped(states) && Shaped(derivs) && |states| == |derivs| == 2
    ensures Accepts(GravityField(g), 2)
    ensures var r := Evaluation(states, time, h, derivs, GravityField(g));
      r[0][0] == Plus(states[0][1], Scale(derivs[0][1], h)) && r[0][1] == Vec(0.0, g) &&
      r[1][0] == Plus(states[1][1], Scale(derivs[1][1], h)) && r[1][1] == Zero
  {
    FieldAccepts(g);
    var p := Advance(states, derivs, h);
    assert p[0][1] == Plus(states[0][1], Scale(derivs[0][1], h));
    assert p[1][1] == Plus(states[1][1], Scale(derivs[1][1], h));
  }

  /** A velocity after accelerating at g for time h. */
  function Kick(v: Vec, g: real, h: real): Vec {
    Vec(v.x, v.y + g * h)
  }

  /** A position after moving at velocity v for time h while accelerating at g. */
  function Drift(p: Vec, v: Vec, g: real, h: real): Vec {
    Vec(p.x + v.x * h, p.y + v.y * h + g * h * h / 2.0)
  }

  /** A rotation after turning at angular velocity w for time h. */
  function Turned(rotation: real, w: real, h: real): real {
    rotation + w * h
  }

  lemma ShiftUp(v: Vec, g: real, h: real)
    ensures Plus(v, Scale(Vec(0.0, g), h)) == Kick(v, g, h)
  {
  }

  lemma Standstill(v: Vec, h: real)
    ensures Plus(v, Scale(Zero, h)) == v
  {
    ScaleZero(h);
    PlusZero(v);
  }

  /** What one stage of a free-flight step looks like: the velocity `v` and angular velocity `w`
      as derivatives of position and rotation, gravity and no angular acceleration as
      derivatives of the velocities. */
  predicate FlightStage(d: seq<Slot>, v: Vec, w: real, g: real) {
    |d| == 2 && |d[0]| == |d[1]| == NValues &&
    d[0][0] == v && d[0][1] == Vec(0.0, g) && d[1][0] == Vec(w, 0.0) && d[1][1] == Zero
  }

  /** The next stage of a free-flight step, from the stage before it advanced by h. */
  lemma {:induction false} NextFlightStage(pos: Vec, vel: Vec, rotation: real, angularVel: real, g: real,
                                           time: real, h: real, derivs: seq<Slot>, v: Vec)
    requires Shaped(derivs) && FlightStage(derivs, v, angularVel, g)
    ensures Accepts(GravityField(g), 2)
    ensures FlightStage(Evaluation(BodyStates(pos, vel, rotation, angularVel), time, h, derivs, GravityField(g)),
                        Kick(vel, g, h), angularVel, g)
  {
    var s := BodyStates(pos, vel, rotation, angularVel);
    assert s[0][1] == vel && s[1][1] == Vec(angularVel, 0.0);
    EvaluateGravity(s, time, h, derivs, g);
    ShiftUp(vel, g, h);
    Standstill(Vec(angularVel, 0.0), h);
  }

  /** The first stage of a free-flight step: the derivatives at the states themselves. */
  lemma FirstFlightStage(pos: Vec, vel: Vec, rotation: real, angularVel: real, g: real, t: real)
    ensures Accepts(GravityField(g), 2)
    ensures FlightStage(Evaluation(BodyStates(pos, vel, rotation, angularVel), t, 0.0, Zeros(2), GravityField(g)),
                        vel, angularVel, g)
  {
    var s := BodyStates(pos, vel, rotation, angularVel);
    FieldAccepts(g);
    assert s[0][1] == vel && s[1][1] == Vec(angularVel, 0.0);
    EvaluateGravity(s, t, 0.0, Zeros(2), g);
    Standstill(vel, 0.0);
    Standstill(Vec(angularVel, 0.0), 0.0);
  }

  /** The four stage derivatives of one free-flight step. */
  lemma {:induction false} StagesOfFlight(pos: Vec, vel: Vec, rotation: real, angularVel: real, g: real, t: real, dt: real)
    ensures Wellformed(BodyStates(pos, vel, rotation, angularVel), GravityField(g))
    ensures var st := StagesOf(BodyStates(pos, vel, rotation, angularVel), t, dt, GravityField(g));
      var h := dt * 0.5;
      FlightStage(st.a, vel, angularVel, g) &&
      FlightStage(st.b, Kick(vel, g, h), angularVel, g) &&
      FlightStage(st.c, Kick(vel, g, h), angularVel, g) &&
      FlightStage(st.d, Kick(vel, g, dt), angularVel, g)
  {
    var s := BodyStates(pos, vel, rotation, angularVel);
    var f := GravityField(g);
    FieldAccepts(g);
    var h := dt * 0.5;
    var st := StagesOf(s, t, dt, f);
    StagesChain(s, t, dt, f);
    FirstFlightStage(pos, vel, rotation, angularVel, g, t);
    NextFlightStage(pos, vel, rotation, angularVel, g, t + h, h, st.a, vel);
    NextFlightStage(pos, vel, rotation, angularVel, g, t + h, h, st.b, Kick(vel, g, h));
    NextFlightStage(pos, vel, rotation, angularVel, g, t + dt, dt, st.c, Kick(vel, g, h));
  }

  /** The RK4 weights applied to the stage velocities of a free-flight step. */
  lemma CombineFlight(vel: Vec, g: real, dt: real)
    ensures var h := dt * 0.5;
      Combine(vel, Kick(vel, g, h), Kick(vel, g, h), Kick(vel, g, dt))
        == Kick(vel, g, dt / 2.0)
  {
  }

  lemma CombineConstant(v: Vec)
    ensures Combine(v, v, v, v) == v
  {
  }

  lemma DriftFlight(pos: Vec, vel: Vec, g: real, dt: real)
    ensures Plus(pos, Scale(Kick(vel, g, dt / 2.0), dt)) == Drift(pos, vel, g, dt)
  {
    assert (vel.y + g * (dt / 2.0)) * dt == vel.y * dt + g * (dt / 2.0) * dt;
    assert g * (dt / 2.0) * dt == g * dt * dt / 2.0;
  }

  lemma {:induction false} FlightPosition(pos: Vec, vel: Vec, rotation: real, angularVel: real, g: real, t: real, dt: real)
    ensures Wellformed(BodyStates(pos, vel, rotation, angularVel), GravityField(g))
    ensures Integration(BodyStates(pos, vel, rotation, angularVel), t, dt, GravityField(g))[0][0] == Drift(pos, vel, g, dt)
  {
    FieldAccepts(g);
    StagesOfFlight(pos, vel, rotation, angularVel, g, t, dt);
    IntegrationAt(BodyStates(pos, vel, rotation, angularVel), t, dt, GravityField(g), 0, 0);
    CombineFlight(vel, g, dt);
    DriftFlight(pos, vel, g, dt);
  }

  lemma {:induction false} FlightVelocity(pos: Vec, vel: Vec, rotation: real, angularVel: real, g: real, t: real, dt: real)
    ensures Wellformed(BodyStates(pos, vel, rotation, angularVel), GravityField(g))
    ensures Integration(BodyStates(pos, vel, rotation, angularVel), t, dt, GravityField(g))[0][1] == Kick(vel, g, dt)
  {
    FieldAccepts(g);
    StagesOfFlight(pos, vel, rotation, angularVel, g, t, dt);
    IntegrationAt(BodyStates(pos, vel, rotation, angularVel), t, dt, GravityField(g), 0, 1);
    CombineConstant(Vec(0.0, g));
    ShiftUp(vel, g, dt);
  }

  lemma {:induction false} FlightRotation(pos: Vec, vel: Vec, rotation: real, angularVel: real, g: real, t: real, dt: real)
    ensures Wellformed(BodyStates(pos, vel, rotation, angularVel), GravityField(g))
    ensures Integration(BodyStates(pos, vel, rotation, angularVel), t, dt, GravityField(g))[1][0].x
      == Turned(rotation, angularVel, dt)
  {
    FieldAccepts(g);
    StagesOfFlight(pos, vel, rotation, angularVel, g, t, dt);
    var s := BodyStates(pos, vel, rotation, angularVel);
    var st := StagesOf(s, t, dt, GravityField(g));
    var w := Vec(angularVel, 0.0);
    assert s[1][0] == Vec(rotation, 0.0);
    assert st.a[1][0] == w && st.b[1][0] == w && st.c[1][0] == w && st.d[1][0] == w;
    IntegrationAt(s, t, dt, GravityField(g), 1, 0);
    CombineConstant(w);
    assert Integration(s, t, dt, GravityField(g))[1][0] == Plus(Vec(rotation, 0.0), Scale(w, dt));
    Turn(rotation, angularVel, dt);
  }

  lemma {:induction false} FlightSpin(pos: Vec, vel: Vec, rotation: real, angularVel: real, g: real, t: real, dt: real)
    ensures Wellformed(BodyStates(pos, vel, rotation, angularVel), GravityField(g))
    ensures Integration(BodyStates(pos, vel, rotation, angularVel), t, dt, GravityField(g))[1][1].x == angularVel
  {
    FieldAccepts(g);
    StagesOfFlight(pos, vel, rotation, angularVel, g, t, dt);
    var s := BodyStates(pos, vel, rotation, angularVel);
    assert s[1][1] == Vec(angularVel, 0.0);
    IntegrationAt(s, t, dt, GravityField(g), 1, 1);
    CombineConstant(Zero);
    CombineZero(dt);
    Standstill(Vec(angularVel, 0.0), dt);
  }

  lemma Turn(rotation: real, w: real, dt: real)
    ensures Plus(Vec(rotation, 0.0), Scale(Vec(w, 0.0), dt)).x == Turned(rotation, w, dt)
  {
  }

  /** RK4 is exact for uniform gravity: one step lands precisely on the parabola, the rotation
      advances linearly and the angular velocity is unchanged. */
  lemma {:induction false} FlightIsExact(pos: Vec, vel: Vec, rotation: real, angularVel: real, g: real, t: real, dt: real)
    ensures Wellformed(BodyStates(pos, vel, rotation, angularVel), GravityField(g))
    ensures var r := Integration(BodyStates(pos, vel, rotation, angularVel), t, dt, GravityField(g));
      var e := Ballistic(pos, vel, rotation, angularVel, g, dt);
      r[0][0] == e.pos && r[0][1] == e.vel && r[1][0].x == e.rotation && r[1][1].x == e.angularVel
  {
    FlightPosition(pos, vel, rotation, angularVel, g, t, dt);
    FlightVelocity(pos, vel, rotation, angularVel, g, t, dt);
    FlightRotation(pos, vel, rotation, angularVel, g, t, dt);
    FlightSpin(pos, vel, rotation, angularVel, g, t, dt);
  }

  /** GravityInterpolatorRK4.update: one integration step of the body's motion. The results are
      what the source writes back into the body's position, velocity, rotation and angular
      velocity. */
  method Update(it: Interpolator, g: real, pos: Vec, vel: Vec, rotation: real, angularVel: real, dt: real)
    returns (pos': Vec, vel': Vec, rotation': real, angularVel': real)
    modifies it
    ensures it.t == old(it.t) + dt
    ensures Flight(pos', vel', rotation', angularVel') == Ballistic(pos, vel, rotation, angularVel, g, dt)
  {
    var states := new Slot[2];
    states[0] := NewState([pos, vel]);
    states[1] := NewState([Vec(rotation, 0.0), Vec(angularVel, 0.0)]);
    assert states[..] == BodyStates(pos, vel, rotation, angularVel);
    FieldAccepts(g);
    ghost var t0 := it.t;
    var probes := it.Integrate(states, dt, GravityField(g));
    FlightIsExact(pos, vel, rotation, angularVel, g, t0, dt);
    pos' := states[0][0];
    vel' := states[0][1];
    rotation' := states[1][0].x;
    angularVel' := states[1][1].x;
  }
}
