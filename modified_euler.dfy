/** The Modified Euler (midpoint, second-order Runge-Kutta) solver. */
module ModifiedEuler {
  import opened Problem
  import opened Solver
  import opened RungeKuttaBase
  import opened Grid
  import opened Steps
  import opened Explicit

  /** The values u_0 .. u_n of n steps of the midpoint rule. */
  function Path(f: Rhs, t0: real, dt: real, u0: real, n: nat): seq<real>
  {
    var g := StepOf(MidpointStep, f, dt);
    Trajectory(g, 0, OneStep(g), t0, dt, u0, n)
  }

  /** The midpoint step: k1 = f(t, u), k2 = f(t + dt/2, u + k1 dt/2),
      u + dt k2. */
  lemma Formula(f: Rhs, dt: real, t: real, u: real)
    ensures var k1 := f(t, u);
      var k2 := f(t + dt / 2.0, u + k1 * dt / 2.0);
      StepOf(MidpointStep, f, dt)(t, u) == u + dt * k2
  {
  }

  /** t[i] = t[i-1] + dt and u[i] is one step of the midpoint rule from
      (t[i-1], u[i-1]) at every point after the first. */
  lemma Recurrence(f: Rhs, t0: real, dt: real, u0: real, n: nat, i: nat)
    requires 1 <= i <= n
    ensures var ts, vs := Times(t0, dt, n), Path(f, t0, dt, u0, n);
      ts[i] == ts[i - 1] + dt && vs[i] == StepOf(MidpointStep, f, dt)(ts[i - 1], vs[i - 1])
  {
    OneStepTrajectory(StepOf(MidpointStep, f, dt), 0, t0, dt, u0, n, i);
  }

  /** On an affine right-hand side f(t, u) = a + b t the values are the
      exact solution at every grid point. */
  lemma ExactOnAffine(a: real, b: real, t0: real, dt: real, u0: real, n: nat)
    ensures forall i :: 0 <= i <= n ==>
      Path(Affine(a, b), t0, dt, u0, n)[i] == AffineSolution(a, b, t0, u0, Times(t0, dt, n)[i])
  {
    var g := StepOf(MidpointStep, Affine(a, b), dt);
    var sol := AffineCurve(a, b, t0, u0);
    StepExactOnAffine(MidpointStep, a, b, t0, u0, dt);
    OneStepExact(g, 0, sol, t0, dt);
    TrajectoryExact(g, 0, OneStep(g), sol, t0, dt, u0, n);
  }

  class ModifiedEulerSolver {
    const rk: RungeKutta

    ghost predicate Valid()
      reads this, rk, rk.base
    {
      rk.Valid()
    }

    constructor (that: RhsOdeProblem)
      requires that.dt != 0.0 && StepCount(that) >= 0
      ensures fresh(rk) && fresh(rk.base) && fresh(rk.base.rhs) && rk.base.rhs.SameAs(that)
      ensures rk.base.stepSize == that.dt && rk.base.initialTime == that.t0
      ensures rk.base.finalTime == that.tf && rk.base.initialValue == that.u0
      ensures Valid() && rk.base.Ns == StepCount(that)
    {
      rk := new RungeKutta(that);
    }

    /** The grid holds the times and values of Ns steps of the midpoint rule. */
    ghost predicate Solved()
      reads this, rk, rk.base, rk.base.rhs, rk.base.t, rk.base.u
    {
      var s := rk.base;
      && s.Ns >= 0
      && s.t[..] == Times(s.initialTime, s.stepSize, s.Ns)
      && s.u[..] == Path(s.rhs.numericalFunction, s.initialTime, s.stepSize, s.initialValue, s.Ns)
    }

    /** solve(filename): throws before touching the grid when the file
        does not open; otherwise fills the whole grid. */
    method SolveToFile(fileOpens: bool) returns (r: Outcome)
      requires Valid()
      modifies rk.base.t, rk.base.u
      ensures r == if fileOpens then Completed else FileErrorThrown
      ensures r == FileErrorThrown ==> unchanged(rk.base.t) && unchanged(rk.base.u)
      ensures r == Completed ==> Solved()
    {
      if !fileOpens {
        return FileErrorThrown;
      }
      Fill();
      r := Completed;
    }

    /** solve(): the same grid. */
    method Solve() returns (r: Outcome)
      requires Valid()
      modifies rk.base.t, rk.base.u
      ensures r == Completed && Solved()
    {
      Fill();
      r := Completed;
    }

    /** The body both overloads share; the grid is never empty. */
    method Fill()
      requires Valid()
      modifies rk.base.t, rk.base.u
      ensures Solved()
    {
      var s := rk.base;
      var ok := OneStepFill(s, StepOf(MidpointStep, s.rhs.numericalFunction, s.stepSize));
    }
  }
}
