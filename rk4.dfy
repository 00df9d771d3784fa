/** The classical fourth-order Runge-Kutta integrator (physics/InterpolatorRK4.java).
    A state array holds slots; every slot (State.values, and Derivative.values, which has the same
    shape) holds ten vectors. The three overridable derivative functions are the fields of a
    `Field`: `d0`, `d1` and `d2` give, for every slot, the rate of change of its values 0, 1 and 2.
    Values 3 to 9 of a slot always have a zero rate. */
module Rk4 {
  import opened Vectors

  /** nValues. */
  const NValues: nat := 10

  type Slot = seq<Vec>

  /** Every slot of the array holds NValues vectors. */
  predicate Shaped(states: seq<Slot>) {
    forall i :: 0 <= i < |states| ==> |states[i]| == NValues
  }

  /** createZeroVectorArray, and the values of a newly built State or Derivative. */
  function ZeroArray(): (r: seq<Vec>)
    ensures |r| == NValues
    ensures forall k :: 0 <= k < NValues ==> r[k] == Zero
  {
    seq(NValues, _ => Zero)
  }

  /** createVectorArray(vs...): the given vectors first, zero vectors after. */
  function VectorArray(vs: seq<Vec>): (r: seq<Vec>)
    requires |vs| <= NValues
    ensures |r| == NValues
    ensures forall k :: 0 <= k < |vs| ==> r[k] == vs[k]
    ensures forall k :: |vs| <= k < NValues ==> r[k] == Zero
  {
    vs + seq(NValues - |vs|, _ => Zero)
  }

  /** State.setValues(vs): the leading entries are overwritten, the others are kept. */
  function SetValues(slot: Slot, vs: seq<Vec>): (r: Slot)
    requires |vs| <= |slot|
    ensures |r| == |slot|
    ensures forall k :: 0 <= k < |vs| ==> r[k] == vs[k]
    ensures forall k :: |vs| <= k < |slot| ==> r[k] == slot[k]
  {
    vs + slot[|vs|..]
  }

  /** A new State with the given leading values: what `new State()` followed by `setValues` builds. */
  function NewState(vs: seq<Vec>): (r: Slot)
    requires |vs| <= NValues
    ensures |r| == NValues
    ensures forall k :: 0 <= k < |vs| ==> r[k] == vs[k]
    ensures forall k :: |vs| <= k < NValues ==> r[k] == Zero
  {
    SetValues(ZeroArray(), vs)
  }

  /** The derivative functions derivatives0, derivatives1 and derivatives2. */
  datatype Field = Field(
    d0: (seq<Slot>, real) --> seq<Vec>,
    d1: (seq<Slot>, real) --> seq<Vec>,
    d2: (seq<Slot>, real) --> seq<Vec>)

  /** `f` can be called on every well-shaped array of `n` slots and answers NValues vectors, as
      createVectorArray and createZeroVectorArray do. */
  ghost predicate Accepts(f: Field, n: nat) {
    forall s: seq<Slot>, t: real ::
      |s| == n && Shaped(s) ==>
        f.d0.requires(s, t) && f.d1.requires(s, t) && f.d2.requires(s, t) &&
        |f.d0(s, t)| == NValues && |f.d1(s, t)| == NValues && |f.d2(s, t)| == NValues
  }

  /** The derivative functions a concrete integrator does not override: all zero. */
  function Default(): Field {
    Field((s, t) => ZeroArray(), (s, t) => ZeroArray(), (s, t) => ZeroArray())
  }

  /** The array of all-zero derivatives `integrate` starts from. */
  function Zeros(n: nat): (r: seq<Slot>)
    ensures |r| == n && Shaped(r)
  {
    seq(n, _ => ZeroArray())
  }

  /** The new states `evaluate` builds: state + deriv * h, value by value. */
  function Advance(states: seq<Slot>, derivs: seq<Slot>, h: real): (r: seq<Slot>)
    requires Shaped(states) && Shaped(derivs) && |derivs| == |states|
    ensures |r| == |states| && Shaped(r)
  {
    seq(|states|, i requires 0 <= i < |states| =>
      seq(NValues, j requires 0 <= j < NValues => Plus(states[i][j], Scale(derivs[i][j], h))))
  }

  /** The derivative array `evaluate` returns for the new states `ns` at time `time`. */
  function Derive(ns: seq<Slot>, time: real, f: Field): (r: seq<Slot>)
    requires Shaped(ns) && |ns| <= NValues && Accepts(f, |ns|)
    ensures |r| == |ns| && Shaped(r)
  {
    var a, b, c := f.d0(ns, time), f.d1(ns, time), f.d2(ns, time);
    seq(|ns|, i requires 0 <= i < |ns| => VectorArray([a[i], b[i], c[i]]))
  }

  /** evaluate(states, time, h, derivs): the derivatives at time + h of the states advanced by h. */
  function Evaluation(states: seq<Slot>, time: real, h: real, derivs: seq<Slot>, f: Field): (r: seq<Slot>)
    requires Shaped(states) && Shaped(derivs) && |derivs| == |states| <= NValues
    requires Accepts(f, |states|)
    ensures |r| == |states| && Shaped(r)
  {
    Derive(Advance(states, derivs, h), time + h, f)
  }

  /** The four stage derivatives a, b, c and d of one `integrate` call. */
  datatype Stages = Stages(a: seq<Slot>, b: seq<Slot>, c: seq<Slot>, d: seq<Slot>)

  ghost predicate Wellformed(states: seq<Slot>, f: Field) {
    Shaped(states) && |states| <= NValues && Accepts(f, |states|)
  }

  function StagesOf(states: seq<Slot>, t: real, dt: real, f: Field): (r: Stages)
    requires Wellformed(states, f)
    ensures |r.a| == |r.b| == |r.c| == |r.d| == |states|
    ensures Shaped(r.a) && Shaped(r.b) && Shaped(r.c) && Shaped(r.d)
  {
    var a := Evaluation(states, t, 0.0, Zeros(|states|), f);
    var b := Evaluation(states, t + dt * 0.5, dt * 0.5, a, f);
    var c := Evaluation(states, t + dt * 0.5, dt * 0.5, b, f);
    var d := Evaluation(states, t + dt, dt, c, f);
    Stages(a, b, c, d)
  }

  /** Each stage evaluates the derivatives of the states advanced along the stage before it. */
  lemma StagesChain(states: seq<Slot>, t: real, dt: real, f: Field)
    requires Wellformed(states, f)
    ensures var st := StagesOf(states, t, dt, f);
      st.a == Evaluation(states, t, 0.0, Zeros(|states|), f) &&
      st.b == Evaluation(states, t + dt * 0.5, dt * 0.5, st.a, f) &&
      st.c == Evaluation(states, t + dt * 0.5, dt * 0.5, st.b, f) &&
      st.d == Evaluation(states, t + dt, dt, st.c, f)
  {
  }

  /** The four state arrays handed to the derivative functions, in call order. */
  function Probes(states: seq<Slot>, t: real, dt: real, f: Field): (r: seq<seq<Slot>>)
    requires Wellformed(states, f)
    ensures |r| == 4
    ensures forall k :: 0 <= k < 4 ==> |r[k]| == |states| && Shaped(r[k])
  {
    var st := StagesOf(states, t, dt, f);
    [Advance(states, Zeros(|states|), 0.0), Advance(states, st.a, dt * 0.5),
     Advance(states, st.b, dt * 0.5), Advance(states, st.c, dt)]
  }

  /** Four evaluations chained as `integrate` chains them are its stages, and the states they
      advance are its probes. */
  lemma StagesFrom(s: seq<Slot>, t: real, dt: real, f: Field, a: seq<Slot>, b: seq<Slot>, c: seq<Slot>, d: seq<Slot>)
    requires Wellformed(s, f)
    requires a == Evaluation(s, t, 0.0, Zeros(|s|), f)
    requires b == Evaluation(s, t + dt * 0.5, dt * 0.5, a, f)
    requires c == Evaluation(s, t + dt * 0.5, dt * 0.5, b, f)
    requires d == Evaluation(s, t + dt, dt, c, f)
    ensures StagesOf(s, t, dt, f) == Stages(a, b, c, d)
    ensures Probes(s, t, dt, f) ==
      [Advance(s, Zeros(|s|), 0.0), Advance(s, a, dt * 0.5), Advance(s, b, dt * 0.5), Advance(s, c, dt)]
  {
  }

  /** dxdt = (a + 2 (b + c) + d) / 6, in the order the source computes it. */
  function Combine(a: Vec, b: Vec, c: Vec, d: Vec): Vec {
    Quotient(Plus(Plus(Scale(Plus(b, c), 2.0), a), d), 6.0)
  }

  /** The stage derivatives fit the states. */
  predicate Fits(states: seq<Slot>, st: Stages) {
    |st.a| == |st.b| == |st.c| == |st.d| == |states| &&
    Shaped(states) && Shaped(st.a) && Shaped(st.b) && Shaped(st.c) && Shaped(st.d)
  }

  /** Every value moved by dxdt * dt. */
  function Accumulated(states: seq<Slot>, st: Stages, dt: real): (r: seq<Slot>)
    requires Fits(states, st)
    ensures |r| == |states| && Shaped(r)
  {
    seq(|states|, i requires 0 <= i < |states| =>
      seq(NValues, j requires 0 <= j < NValues =>
        Plus(states[i][j], Scale(Combine(st.a[i][j], st.b[i][j], st.c[i][j], st.d[i][j]), dt))))
  }

  /** The states after one `integrate(states, dt)` with the clock at `t`. */
  function Integration(states: seq<Slot>, t: real, dt: real, f: Field): (r: seq<Slot>)
    requires Wellformed(states, f)
    ensures |r| == |states| && Shaped(r)
  {
    Accumulated(states, StagesOf(states, t, dt, f), dt)
  }

  /** The derivative functions see the times t, t + dt, t + dt and t + 2 dt: every `evaluate` adds
      its own step to a time that the caller has already advanced. */
  lemma ProbeTimes(states: seq<Slot>, t: real, dt: real, f: Field)
    requires Wellformed(states, f)
    ensures var st := StagesOf(states, t, dt, f); var p := Probes(states, t, dt, f);
      st.a == Derive(p[0], t, f) && st.b == Derive(p[1], t + dt, f) &&
      st.c == Derive(p[2], t + dt, f) && st.d == Derive(p[3], t + 2.0 * dt, f)
  {
    assert t + dt * 0.5 + dt * 0.5 == t + dt;
    assert t + dt + dt == t + 2.0 * dt;
  }

  lemma CombineZero(dt: real)
    ensures Scale(Combine(Zero, Zero, Zero, Zero), dt) == Zero
  {
    PlusZero(Zero);
    ScaleZero(2.0);
    QuotientZero(6.0);
    ScaleZero(dt);
  }

  /** One entry of an integration step, as the source computes it. */
  lemma IntegrationAt(states: seq<Slot>, t: real, dt: real, f: Field, i: int, j: int)
    requires Wellformed(states, f)
    requires 0 <= i < |states| && 0 <= j < NValues
    ensures var st := StagesOf(states, t, dt, f);
      Integration(states, t, dt, f)[i][j]
        == Plus(states[i][j], Scale(Combine(st.a[i][j], st.b[i][j], st.c[i][j], st.d[i][j]), dt))
  {
  }

  /** Every stage derivative of a value beyond the second order is zero. */
  lemma StagesInert(states: seq<Slot>, t: real, dt: real, f: Field, i: int, j: int)
    requires Wellformed(states, f)
    requires 0 <= i < |states| && 3 <= j < NValues
    ensures var st := StagesOf(states, t, dt, f);
      st.a[i][j] == Zero && st.b[i][j] == Zero && st.c[i][j] == Zero && st.d[i][j] == Zero
  {
  }

  /** Values 3..9 of every slot never change, whatever the derivative functions are. */
  lemma {:induction false} HigherOrdersUnchanged(states: seq<Slot>, t: real, dt: real, f: Field, i: int, j: int)
    requires Wellformed(states, f)
    requires 0 <= i < |states| && 3 <= j < NValues
    ensures Integration(states, t, dt, f)[i][j] == states[i][j]
  {
    StagesInert(states, t, dt, f, i, j);
    IntegrationAt(states, t, dt, f, i, j);
    CombineZero(dt);
  }

  lemma DefaultAccepts(n: nat)
    ensures Accepts(Default(), n)
  {
  }

  lemma DeriveDefault(ns: seq<Slot>, time: real)
    requires Shaped(ns) && |ns| <= NValues
    ensures Accepts(Default(), |ns|)
    ensures forall i, j :: 0 <= i < |ns| && 0 <= j < NValues ==> Derive(ns, time, Default())[i][j] == Zero
  {
    DefaultAccepts(|ns|);
  }

  /** With the default, all-zero derivative functions an integration step changes nothing. */
  lemma {:induction false} DefaultKeepsStates(states: seq<Slot>, t: real, dt: real)
    requires Shaped(states) && |states| <= NValues
    ensures Accepts(Default(), |states|)
    ensures Integration(states, t, dt, Default()) == states
  {
    DefaultAccepts(|states|);
    var r := Integration(states, t, dt, Default());
    var st := StagesOf(states, t, dt, Default());
    var p := Probes(states, t, dt, Default());
    ProbeTimes(states, t, dt, Default());
    DeriveDefault(p[0], t);
    DeriveDefault(p[1], t + dt);
    DeriveDefault(p[2], t + dt);
    DeriveDefault(p[3], t + 2.0 * dt);
    forall i, j | 0 <= i < |states| && 0 <= j < NValues
      ensures r[i][j] == states[i][j]
    {
      assert st.a[i][j] == Zero && st.b[i][j] == Zero && st.c[i][j] == Zero && st.d[i][j] == Zero;
      IntegrationAt(states, t, dt, Default(), i, j);
      CombineZero(dt);
      PlusZero(states[i][j]);
    }
    forall i | 0 <= i < |states|
      ensures r[i] == states[i]
    {
    }
  }

  /** The integrator object: it owns the clock `t`, which every step advances by its `dt`. */
  class Interpolator {
    var t: real

    constructor ()
      ensures t == 0.0
    {
      t := 0.0;
    }

    /** evaluate: the advanced states (returned as `probe`) and their derivatives. */
    method Evaluate(states: seq<Slot>, time: real, dt: real, derivs: seq<Slot>, f: Field)
      returns (nd: seq<Slot>, probe: seq<Slot>)
      requires Shaped(states) && Shaped(derivs) && |derivs| == |states| <= NValues
      requires Accepts(f, |states|)
      ensures probe == Advance(states, derivs, dt)
      ensures nd == Derive(probe, time + dt, f)
    {
      var n := |states|;
      var newStates := new Slot[n](_ => ZeroArray());
      for i := 0 to n
        invariant forall k :: 0 <= k < i ==> newStates[k] == Advance(states, derivs, dt)[k]
        invariant forall k :: i <= k < n ==> newStates[k] == ZeroArray()
      {
        for j := 0 to NValues
          invariant |newStates[i]| == NValues
          invariant forall m :: 0 <= m < j ==> newStates[i][m] == Plus(states[i][m], Scale(derivs[i][m], dt))
          invariant forall k :: 0 <= k < i ==> newStates[k] == Advance(states, derivs, dt)[k]
          invariant forall k :: i < k < n ==> newStates[k] == ZeroArray()
        {
          newStates[i] := newStates[i][j := Plus(states[i][j], Scale(derivs[i][j], dt))];
        }
      }
      probe := newStates[..];
      assert probe == Advance(states, derivs, dt);
      var derivatives0 := f.d0(probe, time + dt);
      var derivatives1 := f.d1(probe, time + dt);
      var derivatives2 := f.d2(probe, time + dt);
      var newDerivatives := new Slot[n];
      for i := 0 to n
        invariant forall k :: 0 <= k < i ==>
          newDerivatives[k] == VectorArray([derivatives0[k], derivatives1[k], derivatives2[k]])
      {
        var values := ZeroArray();
        values := values[0 := derivatives0[i]][1 := derivatives1[i]][2 := derivatives2[i]];
        assert values == VectorArray([derivatives0[i], derivatives1[i], derivatives2[i]]);
        newDerivatives[i] := values;
      }
      nd := newDerivatives[..];
    }

    /** integrate: overwrites every stored value with its RK4 update and advances the clock.
        `probes` are the state arrays the derivative functions were called on, in order. */
    method Integrate(states: array<Slot>, dt: real, f: Field) returns (probes: seq<seq<Slot>>)
      requires Wellformed(states[..], f)
      modifies this, states
      ensures t == old(t) + dt
      ensures states[..] == Integration(old(states[..]), old(t), dt, f)
      ensures probes == Probes(old(states[..]), old(t), dt, f)
    {
      var s := states[..];
      var n := states.Length;
      var zeros := Zeros(n);
      var a, pa := Evaluate(s, t, 0.0, zeros, f);
      var b, pb := Evaluate(s, t + dt * 0.5, dt * 0.5, a, f);
      var c, pc := Evaluate(s, t + dt * 0.5, dt * 0.5, b, f);
      var d, pd := Evaluate(s, t + dt, dt, c, f);
      StagesFrom(s, t, dt, f, a, b, c, d);
      ApplyStages(states, Stages(a, b, c, d), dt);
      probes := [pa, pb, pc, pd];
      t := t + dt;
    }

    /** The final loop of `integrate`: value[j] += dxdt * dt for every slot and every value. */
    method ApplyStages(states: array<Slot>, st: Stages, dt: real)
      requires Fits(states[..], st)
      modifies states
      ensures states[..] == Accumulated(old(states[..]), st, dt)
    {
      ghost var s := states[..];
      ghost var goal := Accumulated(s, st, dt);
      for i := 0 to states.Length
        invariant forall k :: 0 <= k < i ==> states[k] == goal[k]
        invariant forall k :: i <= k < states.Length ==> states[k] == s[k]
      {
        for j := 0 to NValues
          invariant |states[i]| == NValues
          invariant forall m :: 0 <= m < j ==> states[i][m] == goal[i][m]
          invariant forall m :: j <= m < NValues ==> states[i][m] == s[i][m]
          invariant forall k :: 0 <= k < i ==> states[k] == goal[k]
          invariant forall k :: i < k < states.Length ==> states[k] == s[k]
        {
          var dxdt := Combine(st.a[i][j], st.b[i][j], st.c[i][j], st.d[i][j]);
          states[i] := states[i][j := Plus(states[i][j], Scale(dxdt, dt))];
        }
        assert states[i] == goal[i];
      }
      assert states[..] == goal;
    }
  }
}
