/** The explicit Euler solver: u[i] = u[i-1] + dt f(t[i-1], u[i-1]). */
module ForwardEuler {
  import opened Problem
  import opened Solver
  import opened Grid
  import opened Steps
  import opened Explicit

  /** The values u_0 .. u_n of n explicit Euler steps. */
  function Path(f: Rhs, t0: real, dt: real, u0: real, n: nat): seq<real>
  {
    var g := StepOf(ForwardEulerStep, f, dt);
    Trajectory(g, 0, OneStep(g), t0, dt, u0, n)
  }

  /** The explicit Euler step: u + dt f(t, u). */
  lemma Formula(f: Rhs, dt: real, t: real, u: real)
    ensures StepOf(ForwardEulerStep, f, dt)(t, u) == u + dt * f(t, u)
  {
  }

  /** t[i] = t[i-1] + dt and u[i] is one explicit Euler step from
      (t[i-1], u[i-1]) at every point after the first. */
  lemma Recurrence(f: Rhs, t0: real, dt: real, u0: real, n: nat, i: nat)
    requires 1 <= i <= n
    ensures var ts, vs := Times(t0, dt, n), Path(f, t0, dt, u0, n);
      ts[i] == ts[i - 1] + dt && vs[i] == StepOf(ForwardEulerStep, f, dt)(ts[i - 1], vs[i - 1])
  {
    OneStepTrajectory(StepOf(ForwardEulerStep, f, dt), 0, t0, dt, u0, n, i);
  }

  /** With a constant right-hand side f = a the values are exact:
      u_i = u0 + a (t_i - t0). */
  lemma ExactOnConstant(a: real, t0: real, dt: real, u0: real, n: nat)
    ensures forall i :: 0 <= i <= n ==>
      Path(Affine(a, 0.0), t0, dt, u0, n)[i] == u0 + a * (Times(t0, dt, n)[i] - t0)
  {
    var g := StepOf(ForwardEulerStep, Affine(a, 0.0), dt);
    var sol := AffineCurve(a, 0.0, t0, u0);
    ForwardEulerExactOnConstant(a, t0, u0, dt);
    OneStepExact(g, 0, sol, t0, dt);
    TrajectoryExact(g, 0, OneStep(g), sol, t0, dt, u0, n);
  }

  class ForwardEulerSolver {
    const base: OdeSolver

    ghost predicate Valid()
      reads this, base
    {
      base.Valid()
    }

    constructor (that: RhsOdeProblem)
      requires that.dt != 0.0 && StepCount(that) >= -1
      ensures fresh(base) && fresh(base.rhs) && base.rhs.SameAs(that)
      ensures base.stepSize == that.dt && base.initialTime == that.t0
      ensures base.finalTime == that.tf && base.initialValue == that.u0
      ensures Valid() && base.Ns == StepCount(that) && fresh(base.t) && fresh(base.u) && fresh(base.uc)
    {
      base := new OdeSolver(that);
    }

    /** The grid holds the times and values of Ns explicit Euler steps. */
    ghost predicate Solved()
      reads this, base, base.rhs, base.t, base.u
    {
      && base.Ns >= 0
      && base.t[..] == Times(base.initialTime, base.stepSize, base.Ns)
      && base.u[..] == Path(base.rhs.numericalFunction, base.initialTime, base.stepSize, base.initialValue, base.Ns)
    }

    /** solve(filename): throws before touching the grid when the file
        does not open; otherwise fills the whole grid (t.at(0) throws on
        an empty one). */
    method SolveToFile(fileOpens: bool) returns (r: Outcome)
      requires Valid()
      modifies base.t, base.u
      ensures r == if !fileOpens then FileErrorThrown else if base.Ns < 0 then OutOfRange else Completed
      ensures r == FileErrorThrown ==> unchanged(base.t) && unchanged(base.u)
      ensures r == Completed ==> Solved()
    {
      if !fileOpens {
        return FileErrorThrown;
      }
      r := Fill();
    }

    /** solve(): the same grid; an out-of-range access terminates. */
    method Solve() returns (r: Outcome)
      requires Valid()
      modifies base.t, base.u
      ensures r == if base.Ns < 0 then Terminated else Completed
      ensures r == Completed ==> Solved()
    {
      r := Fill();
      if r == OutOfRange {
        r := Terminated;
      }
    }

    /** The body both overloads share. */
    method Fill() returns (r: Outcome)
      requires Valid()
      modifies base.t, base.u
      ensures r == if base.Ns < 0 then OutOfRange else Completed
      ensures r == Completed ==> Solved()
    {
      var ok := OneStepFill(base, StepOf(ForwardEulerStep, base.rhs.numericalFunction, base.stepSize));
      r := if ok then Completed else OutOfRange;
    }
  }
}
