/** The one-step update formulas the solvers use, on their own and as
    start-up steps of the multi-step solvers, and their exactness on an
    affine right-hand side. */
module Steps {
  import opened Problem
  import opened Grid

  /** The explicit one-step formulas: forward Euler, the midpoint rule
      (Modified Euler, RK2), Heun's method, classical Runge-Kutta of
      order 4, and Runge-Kutta-Merson. */
  datatype Scheme = ForwardEulerStep | MidpointStep | HeunStep | RungeKutta4Step | MersonStep

  /** One step of `scheme` from (t, u) with step size dt. */
  function Advance(scheme: Scheme, f: Rhs, t: real, dt: real, u: real): real
  {
    match scheme
    case ForwardEulerStep => u + dt * f(t, u)
    case MidpointStep =>
      var k1 := f(t, u);
      var k2 := f(t + dt / 2.0, u + k1 * dt / 2.0);
      u + dt * k2
    case HeunStep =>
      var k1 := f(t, u);
      var k2 := f(t + dt, u + dt * k1);
      u + dt / 2.0 * (k1 + k2)
    case RungeKutta4Step =>
      var k1 := f(t, u);
      var k2 := f(t + dt / 2.0, u + dt / 2.0 * k1);
      var k3 := f(t + dt / 2.0, u + dt / 2.0 * k2);
      var k4 := f(t + dt, u + dt * k3);
      u + dt / 6.0 * (k1 + 2.0 * k2 + 2.0 * k3 + k4)
    case MersonStep =>
      var k1 := dt * f(t, u);
      var k2 := dt * f(t + dt / 3.0, u + k1 / 3.0);
      var k3 := dt * f(t + dt / 3.0, u + 1.0 / 6.0 * (k1 + k2));
      var k4 := dt * f(t + dt / 2.0, u + 1.0 / 8.0 * (k1 + 3.0 * k3));
      var k5 := dt * f(t + dt, u + 1.0 / 2.0 * (k1 - 3.0 * k3 + 4.0 * k4));
      u + 1.0 / 6.0 * (k1 + 4.0 * k4 + 1.0 * k5)
  }

  /** `scheme` with right-hand side f and step size dt as a formula
      from (t_k, u_k) to u_{k+1}. */
  function StepOf(scheme: Scheme, f: Rhs, dt: real): Step
  {
    (tt: real, uu: real) => Advance(scheme, f, tt, dt, uu)
  }

  /** Every scheme but forward Euler integrates an affine right-hand
      side exactly over one step. */
  lemma AdvanceExactOnAffine(scheme: Scheme, a: real, b: real, t: real, dt: real, u: real)
    requires scheme != ForwardEulerStep
    ensures Advance(scheme, Affine(a, b), t, dt, u) == u + dt * (a + b * (t + dt / 2.0))
  {
    var f := Affine(a, b);
    assert f(t, u) == a + b * t;
    match scheme
    case MidpointStep =>
    case HeunStep =>
      assert f(t + dt, u + dt * f(t, u)) == a + b * (t + dt);
    case RungeKutta4Step =>
      var m := a + b * (t + dt / 2.0);
      assert f(t + dt / 2.0, u + dt / 2.0 * f(t, u)) == m;
      assert f(t + dt, u + dt * m) == a + b * (t + dt);
    case MersonStep =>
      var k1 := dt * f(t, u);
      var k2 := dt * f(t + dt / 3.0, u + k1 / 3.0);
      var k3 := dt * f(t + dt / 3.0, u + 1.0 / 6.0 * (k1 + k2));
      var k4 := dt * f(t + dt / 2.0, u + 1.0 / 8.0 * (k1 + 3.0 * k3));
      var k5 := dt * f(t + dt, u + 1.0 / 2.0 * (k1 - 3.0 * k3 + 4.0 * k4));
      assert k4 == dt * (a + b * (t + dt / 2.0));
      assert k5 == dt * (a + b * (t + dt));
      calc {
        1.0 / 6.0 * (k1 + 4.0 * k4 + 1.0 * k5);
        dt / 6.0 * ((a + b * t) + 4.0 * (a + b * (t + dt / 2.0)) + (a + b * (t + dt)));
        dt * (a + b * (t + dt / 2.0));
      }
  }

  /** Hence every scheme but forward Euler carries the solution of an
      affine right-hand side from one grid point to the next. */
  lemma StepExactOnAffine(scheme: Scheme, a: real, b: real, t0: real, u0: real, dt: real)
    requires scheme != ForwardEulerStep
    ensures StartExact(StepOf(scheme, Affine(a, b), dt), AffineCurve(a, b, t0, u0), dt)
  {
    var sol := AffineCurve(a, b, t0, u0);
    forall tt: real
      ensures StepOf(scheme, Affine(a, b), dt)(tt, sol(tt)) == sol(tt + dt)
    {
      AdvanceExactOnAffine(scheme, a, b, tt, dt, sol(tt));
      AffineIncrement(a, b, t0, u0, tt, dt);
    }
  }

  /** Forward Euler is exact when the right-hand side is a constant. */
  lemma ForwardEulerExactOnConstant(a: real, t0: real, u0: real, dt: real)
    ensures StartExact(StepOf(ForwardEulerStep, Affine(a, 0.0), dt), AffineCurve(a, 0.0, t0, u0), dt)
  {
    var sol := AffineCurve(a, 0.0, t0, u0);
    forall tt: real
      ensures StepOf(ForwardEulerStep, Affine(a, 0.0), dt)(tt, sol(tt)) == sol(tt + dt)
    {
      AffineIncrement(a, 0.0, t0, u0, tt, dt);
    }
  }

  /** ... but not when it is affine: for f(t, u) = t from (0, 0) with
      dt = 1 the step gives 0 while the solution t*t/2 is 1/2 there. */
  lemma ForwardEulerMissesAffine()
    ensures StepOf(ForwardEulerStep, Affine(0.0, 1.0), 1.0)(0.0, 0.0) == 0.0
    ensures AffineCurve(0.0, 1.0, 0.0, 0.0)(1.0) == 0.5
    ensures !StartExact(StepOf(ForwardEulerStep, Affine(0.0, 1.0), 1.0), AffineCurve(0.0, 1.0, 0.0, 0.0), 1.0)
  {
    var sol := AffineCurve(0.0, 1.0, 0.0, 0.0);
    assert sol(0.0) == 0.0;
  }

  /** A one-step formula read as a rule is exact wherever it is exact as
      a start-up formula. */
  lemma OneStepExact(g: Step, m: nat, sol: real -> real, t0: real, dt: real)
    requires StartExact(g, sol, dt)
    ensures RuleExact(OneStep(g), m, sol, t0, dt)
  {
    forall ts: seq<real>, us: seq<real> |
      m < |us| && |ts| == |us| + 1 && EvenGrid(ts, t0, dt) && OnCurve(sol, ts, us)
      ensures OneStep(g)(ts, us) == sol(ts[|us|])
    {
      var i := |us| - 1;
      assert us[i] == sol(ts[i]);
      assert ts[i + 1] == ts[i] + dt;
    }
  }
}
