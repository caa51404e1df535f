/** The leap-frog solver: one start-up step, then
    u[i+1] = u[i-1] + 2 dt f(t[i], u[i]). The two entry points start it
    differently: solve(filename) with a midpoint step, solve() with an
    explicit Euler step. */
module LeapFrog {
  import opened Problem
  import opened Solver
  import opened Grid
  import opened Steps
  import opened Explicit

  /** The leap-frog update from the points up to t_i. */
  function Update(f: Rhs, dt: real): Rule
  {
    (ts: seq<real>, us: seq<real>) =>
      var i := |us| - 1;
      At(us, i - 1) + 2.0 * dt * f(At(ts, i), At(us, i))
  }

  /** The update written out on two values. */
  lemma UpdateFormula(f: Rhs, dt: real, ts: seq<real>, us: seq<real>)
    requires 2 <= |us| <= |ts|
    ensures var i := |us| - 1;
      Update(f, dt)(ts, us) == us[i - 1] + 2.0 * dt * f(ts[i], us[i])
  {
  }

  /** The values u_0 .. u_n of the solver started by a step of `start`. */
  function Path(start: Scheme, f: Rhs, t0: real, dt: real, u0: real, n: nat): seq<real>
  {
    Trajectory(StepOf(start, f, dt), 1, Update(f, dt), t0, dt, u0, n)
  }

  /** t[i] = t[i-1] + dt; u[1] is one step of `start` from (t[0], u[0])
      and every later u[i] is the update applied to the points before it
      (written out in UpdateFormula). */
  lemma {:induction false} Recurrence(start: Scheme, f: Rhs, t0: real, dt: real, u0: real, n: nat, i: nat)
    requires 1 <= i <= n
    ensures var ts, vs := Times(t0, dt, n), Path(start, f, t0, dt, u0, n);
      && ts[i] == ts[i - 1] + dt
      && vs[i] == if i == 1 then StepOf(start, f, dt)(ts[0], vs[0]) else Update(f, dt)(ts[..i + 1], vs[..i])
  {
    TrajectoryStep(StepOf(start, f, dt), 1, Update(f, dt), t0, dt, u0, n, i - 1);
    TimesStep(t0, dt, n, i - 1);
  }

  /** The update is exact for an affine right-hand side: two steps of
      the solution are 2 dt times the slope at the middle point. */
  lemma UpdateExactOnAffine(a: real, b: real, t0: real, u0: real, dt: real)
    ensures RuleExact(Update(Affine(a, b), dt), 1, AffineCurve(a, b, t0, u0), t0, dt)
  {
    var sol := AffineCurve(a, b, t0, u0);
    forall ts: seq<real>, us: seq<real> |
      1 < |us| && |ts| == |us| + 1 && EvenGrid(ts, t0, dt) && OnCurve(sol, ts, us)
      ensures Update(Affine(a, b), dt)(ts, us) == sol(ts[|us|])
    {
      var i := |us| - 1;
      assert us[i - 1] == sol(ts[i - 1]);
      assert ts[i] == ts[i - 1] + dt && ts[i + 1] == ts[i] + dt;
      AffineIncrement(a, b, t0, u0, ts[i - 1], 2.0 * dt);
    }
  }

  /** Started by the midpoint step, the solver is exact on an affine
      right-hand side f(t, u) = a + b t. */
  lemma ExactOnAffine(a: real, b: real, t0: real, dt: real, u0: real, n: nat)
    ensures forall i :: 0 <= i <= n ==>
      Path(MidpointStep, Affine(a, b), t0, dt, u0, n)[i] == AffineSolution(a, b, t0, u0, Times(t0, dt, n)[i])
  {
    StepExactOnAffine(MidpointStep, a, b, t0, u0, dt);
    UpdateExactOnAffine(a, b, t0, u0, dt);
    TrajectoryExact(StepOf(MidpointStep, Affine(a, b), dt), 1, Update(Affine(a, b), dt),
                    AffineCurve(a, b, t0, u0), t0, dt, u0, n);
  }

  /** Started by the explicit Euler step, it is exact when f is a
      constant. */
  lemma ExactOnConstant(a: real, t0: real, dt: real, u0: real, n: nat)
    ensures forall i :: 0 <= i <= n ==>
      Path(ForwardEulerStep, Affine(a, 0.0), t0, dt, u0, n)[i] == AffineSolution(a, 0.0, t0, u0, Times(t0, dt, n)[i])
  {
    ForwardEulerExactOnConstant(a, t0, u0, dt);
    UpdateExactOnAffine(a, 0.0, t0, u0, dt);
    TrajectoryExact(StepOf(ForwardEulerStep, Affine(a, 0.0), dt), 1, Update(Affine(a, 0.0), dt),
                    AffineCurve(a, 0.0, t0, u0), t0, dt, u0, n);
  }

  /** The two entry points compute different grids: for f(t, u) = t
      from (0, 0) with dt = 1, u[1] is 1/2 after solve(filename) and 0
      after solve(). */
  lemma EntryPointsDiffer()
    ensures Path(MidpointStep, Affine(0.0, 1.0), 0.0, 1.0, 0.0, 1)[1] == 0.5
    ensures Path(ForwardEulerStep, Affine(0.0, 1.0), 0.0, 1.0, 0.0, 1)[1] == 0.0
  {
    Recurrence(MidpointStep, Affine(0.0, 1.0), 0.0, 1.0, 0.0, 1, 1);
    Recurrence(ForwardEulerStep, Affine(0.0, 1.0), 0.0, 1.0, 0.0, 1, 1);
  }

  /** The fill both entry points share, for a start-up step g and the
      update: t[0], u[0], then u[1] by g (u.at(1) throws on a grid of one
      point), then the loop for i = 1 .. Ns-1. */
  method Fill(s: OdeSolver, g: Step, update: Rule) returns (ok: bool)
    requires s.Valid()
    modifies s.t, s.u
    ensures ok == (s.Ns >= 1)
    ensures s.Ns < 0 ==> unchanged(s.t) && unchanged(s.u)
    ensures s.Ns >= 0 ==> s.t[..] == Times(s.initialTime, s.stepSize, s.Ns)
    ensures s.Ns >= 0 ==> s.u[..] == Trajectory(g, 1, update, s.initialTime, s.stepSize, s.initialValue, s.Ns)
  {
    ok := s.Seed();
    if !ok {
      return;
    }
    ok := StartUp(s, g, 1, update, 1);
    if !ok {
      return;
    }
    Continue(s, g, 1, update);
  }

  class LeapFrogSolver {
    const base: OdeSolver

    ghost predicate Valid()
      reads this, base
    {
      base.Valid()
    }

    constructor (that: RhsOdeProblem)
      requires that.dt != 0.0 && StepCount(that) >= -1
      ensures fresh(base) && fresh(base.rhs) && base.rhs.SameAs(that)
      ensures base.stepSize == that.dt && base.initialTime == that.t0
      ensures base.finalTime == that.tf && base.initialValue == that.u0
      ensures Valid() && base.Ns == StepCount(that) && fresh(base.t) && fresh(base.u) && fresh(base.uc)
    {
      base := new OdeSolver(that);
    }

    /** The grid holds the times and the leap-frog values of Ns steps
        started by `start`. */
    ghost predicate Solved(start: Scheme)
      reads this, base, base.rhs, base.t, base.u
    {
      && base.Ns >= 0
      && base.t[..] == Times(base.initialTime, base.stepSize, base.Ns)
      && base.u[..] == Path(start, base.rhs.numericalFunction, base.initialTime, base.stepSize, base.initialValue, base.Ns)
    }

    /** solve(filename): throws before touching the grid when the file
        does not open; otherwise starts with a midpoint step. On a grid
        of one point u.at(1) throws after t[0] and u[0] are written. */
    method SolveToFile(fileOpens: bool) returns (r: Outcome)
      requires Valid()
      modifies base.t, base.u
      ensures r == if !fileOpens then FileErrorThrown else if base.Ns < 1 then OutOfRange else Completed
      ensures r == FileErrorThrown ==> unchanged(base.t) && unchanged(base.u)
      ensures r != FileErrorThrown && base.Ns >= 0 ==> Solved(MidpointStep)
    {
      if !fileOpens {
        return FileErrorThrown;
      }
      var f, dt := base.rhs.numericalFunction, base.stepSize;
      var ok := Fill(base, StepOf(MidpointStep, f, dt), Update(f, dt));
      r := if ok then Completed else OutOfRange;
    }

    /** solve(): starts with an explicit Euler step instead; an
        out-of-range access terminates. */
    method Solve() returns (r: Outcome)
      requires Valid()
      modifies base.t, base.u
      ensures r == if base.Ns < 1 then Terminated else Completed
      ensures base.Ns >= 0 ==> Solved(ForwardEulerStep)
    {
      var f, dt := base.rhs.numericalFunction, base.stepSize;
      var ok := Fill(base, StepOf(ForwardEulerStep, f, dt), Update(f, dt));
      r := if ok then Completed else Terminated;
    }
  }
}
