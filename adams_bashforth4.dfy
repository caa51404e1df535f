/** The Adams-Bashforth solver of fourth order: 3 start-up steps of
    classical Runge-Kutta, then the explicit 4-step Adams-Bashforth formula. */
module AdamsBashforth4 {
  import opened Problem
  import opened Solver
  import opened Grid
  import opened Steps
  import opened Explicit

  /** The 4-step Adams-Bashforth update from the points up to t_i. */
  function Update(f: Rhs, dt: real): Rule
  {
    (ts: seq<real>, us: seq<real>) =>
      var i := |us| - 1;
      At(us, i) + dt / 24.0 * (55.0 * f(At(ts, i), At(us, i)) - 59.0 * f(At(ts, i - 1), At(us, i - 1))
        + 37.0 * f(At(ts, i - 2), At(us, i - 2)) - 9.0 * f(At(ts, i - 3), At(us, i - 3)))
  }

  /** The update written out on the last 4 values. */
  lemma UpdateFormula(f: Rhs, dt: real, ts: seq<real>, us: seq<real>)
    requires 4 <= |us| <= |ts|
    ensures var i := |us| - 1;
      Update(f, dt)(ts, us) ==
      us[i] + dt / 24.0 * (55.0 * f(ts[i], us[i]) - 59.0 * f(ts[i - 1], us[i - 1])
        + 37.0 * f(ts[i - 2], us[i - 2]) - 9.0 * f(ts[i - 3], us[i - 3]))
  {
  }

  /** The values u_0 .. u_n of the solver. */
  function Path(f: Rhs, t0: real, dt: real, u0: real, n: nat): seq<real>
  {
    Trajectory(StepOf(RungeKutta4Step, f, dt), 3, Update(f, dt), t0, dt, u0, n)
  }

  /** t[i] = t[i-1] + dt; u[1] .. u[3] are steps of classical Runge-Kutta from the
      point before, and every later u[i] is the update applied to the
      points before it (written out in UpdateFormula). */
  lemma {:induction false} Recurrence(f: Rhs, t0: real, dt: real, u0: real, n: nat, i: nat)
    requires 1 <= i <= n
    ensures var ts, vs := Times(t0, dt, n), Path(f, t0, dt, u0, n);
      && ts[i] == ts[i - 1] + dt
      && vs[i] == if i <= 3 then StepOf(RungeKutta4Step, f, dt)(ts[i - 1], vs[i - 1]) else Update(f, dt)(ts[..i + 1], vs[..i])
  {
    TrajectoryStep(StepOf(RungeKutta4Step, f, dt), 3, Update(f, dt), t0, dt, u0, n, i - 1);
    TimesStep(t0, dt, n, i - 1);
  }

  /** The weights sum to 1 and their first moment is -1/2, so on the
      slopes a + b (T - j dt) of an affine right-hand side the update
      advances by dt times the slope at the middle of the step. */
  lemma Weights(a: real, b: real, T: real, dt: real)
    ensures dt / 24.0 * (55.0 * (a + b * T) - 59.0 * (a + b * (T - 1.0 * dt)) + 37.0 * (a + b * (T - 2.0 * dt)) - 9.0 * (a + b * (T - 3.0 * dt))) == dt * (a + b * (T + dt / 2.0))
  {
  }

  /** The update is exact for an affine right-hand side. */
  lemma UpdateExactOnAffine(a: real, b: real, t0: real, u0: real, dt: real)
    ensures RuleExact(Update(Affine(a, b), dt), 3, AffineCurve(a, b, t0, u0), t0, dt)
  {
    var sol := AffineCurve(a, b, t0, u0);
    forall ts: seq<real>, us: seq<real> |
      3 < |us| && |ts| == |us| + 1 && EvenGrid(ts, t0, dt) && OnCurve(sol, ts, us)
      ensures Update(Affine(a, b), dt)(ts, us) == sol(ts[|us|])
    {
      var i := |us| - 1;
      var T := ts[i];
      UpdateFormula(Affine(a, b), dt, ts, us);
      assert us[i] == sol(T);
      assert ts[i + 1] == T + dt;
      assert ts[i - 0] == ts[i - 1] + dt;
      assert ts[i - 1] == ts[i - 2] + dt;
      assert ts[i - 2] == ts[i - 3] + dt;
      assert ts[i - 1] == T - 1.0 * dt;
      assert ts[i - 2] == T - 2.0 * dt;
      assert ts[i - 3] == T - 3.0 * dt;
      Weights(a, b, T, dt);
      AffineIncrement(a, b, t0, u0, T, dt);
    }
  }

  /** On an affine right-hand side f(t, u) = a + b t the values are the
      exact solution at every grid point. */
  lemma ExactOnAffine(a: real, b: real, t0: real, dt: real, u0: real, n: nat)
    ensures forall i :: 0 <= i <= n ==>
      Path(Affine(a, b), t0, dt, u0, n)[i] == AffineSolution(a, b, t0, u0, Times(t0, dt, n)[i])
  {
    StepExactOnAffine(RungeKutta4Step, a, b, t0, u0, dt);
    UpdateExactOnAffine(a, b, t0, u0, dt);
    TrajectoryExact(StepOf(RungeKutta4Step, Affine(a, b), dt), 3, Update(Affine(a, b), dt),
                    AffineCurve(a, b, t0, u0), t0, dt, u0, n);
  }

  /** The fill both entry points share, for any start-up step g and
      update: t[0], u[0], then u[1] .. u[3] by g (u.at(k) throws when k
      is past the end of the grid), then the loop for i = 3 .. Ns-1. */
  method FillWith(s: OdeSolver, g: Step, update: Rule) returns (ok: bool)
    requires s.Valid()
    modifies s.t, s.u
    ensures ok == (s.Ns >= 3)
    ensures s.Ns < 0 ==> unchanged(s.t) && unchanged(s.u)
    ensures s.Ns >= 0 ==> s.t[..] == Times(s.initialTime, s.stepSize, s.Ns)
    ensures s.Ns >= 0 ==> s.u[..] == Trajectory(g, 3, update, s.initialTime, s.stepSize, s.initialValue, s.Ns)
  {
    ok := s.Seed();
    if !ok {
      return;
    }
    ok := StartUp(s, g, 3, update, 1);
    if !ok {
      return;
    }
    ok := StartUp(s, g, 3, update, 2);
    if !ok {
      return;
    }
    ok := StartUp(s, g, 3, update, 3);
    if !ok {
      return;
    }
    Continue(s, g, 3, update);
  }

  /** The fill with the solver's own start-up step and update. */
  method Fill(s: OdeSolver) returns (ok: bool)
    requires s.Valid()
    modifies s.t, s.u
    ensures ok == (s.Ns >= 3)
    ensures s.Ns < 0 ==> unchanged(s.t) && unchanged(s.u)
    ensures s.Ns >= 0 ==> s.t[..] == Times(s.initialTime, s.stepSize, s.Ns)
    ensures s.Ns >= 0 ==> s.u[..] == Path(s.rhs.numericalFunction, s.initialTime, s.stepSize, s.initialValue, s.Ns)
  {
    var f, dt := s.rhs.numericalFunction, s.stepSize;
    ok := FillWith(s, StepOf(RungeKutta4Step, f, dt), Update(f, dt));
  }

  class AdamsBashforth4Solver {
    const base: OdeSolver

    ghost predicate Valid()
      reads this, base
    {
      base.Valid()
    }

    constructor (that: RhsOdeProblem)
      requires that.dt != 0.0 && StepCount(that) >= -1
      ensures fresh(base) && fresh(base.rhs) && base.rhs.SameAs(that)
      ensures base.stepSize == that.dt && base.initialTime == that.t0
      ensures base.finalTime == that.tf && base.initialValue == that.u0
      ensures Valid() && base.Ns == StepCount(that) && fresh(base.t) && fresh(base.u) && fresh(base.uc)
    {
      base := new OdeSolver(that);
    }

    /** The grid holds the times and the values of the solver over Ns
        steps. */
    ghost predicate Solved()
      reads this, base, base.rhs, base.t, base.u
    {
      && base.Ns >= 0
      && base.t[..] == Times(base.initialTime, base.stepSize, base.Ns)
      && base.u[..] == Path(base.rhs.numericalFunction, base.initialTime, base.stepSize, base.initialValue, base.Ns)
    }

    /** solve(filename): throws before touching the grid when the file
        does not open; on a grid of fewer than 4 points a start-up
        write throws after the points before it are written. */
    method SolveToFile(fileOpens: bool) returns (r: Outcome)
      requires Valid()
      modifies base.t, base.u
      ensures r == if !fileOpens then FileErrorThrown else if base.Ns < 3 then OutOfRange else Completed
      ensures r == FileErrorThrown ==> unchanged(base.t) && unchanged(base.u)
      ensures r != FileErrorThrown && base.Ns >= 0 ==> Solved()
    {
      if !fileOpens {
        return FileErrorThrown;
      }
      var ok := Fill(base);
      r := if ok then Completed else OutOfRange;
    }

    /** solve(): the same grid; an out-of-range access terminates. */
    method Solve() returns (r: Outcome)
      requires Valid()
      modifies base.t, base.u
      ensures r == if base.Ns < 3 then Terminated else Completed
      ensures base.Ns >= 0 ==> Solved()
    {
      var ok := Fill(base);
      r := if ok then Completed else Terminated;
    }
  }
}
