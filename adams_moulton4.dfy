/** The Adams-Moulton predictor-corrector solver of fourth order: 3 start-up
    steps of classical Runge-Kutta, then at every later point a predicted value
    iterated to convergence through the 3-step Adams-Moulton corrector. */
module AdamsMoulton4 {
  import opened Problem
  import opened Solver
  import opened Grid
  import opened Steps
  import opened Explicit
  import opened AdamsMethods
  import AdamsBashforth4

  /** The predictor as written: the four-step Adams-Bashforth formula
      except that the weight of f(t_{i-3}, u_{i-3}) is +9 where the
      Adams-Bashforth formula has -9. */
  function Predictor(f: Rhs, dt: real): Rule
  {
    (ts: seq<real>, us: seq<real>) =>
      var i := |us| - 1;
      At(us, i) + dt / 24.0 * (55.0 * f(At(ts, i), At(us, i)) - 59.0 * f(At(ts, i - 1), At(us, i - 1))
        + 37.0 * f(At(ts, i - 2), At(us, i - 2)) + 9.0 * f(At(ts, i - 3), At(us, i - 3)))
  }

  /** The predictor written out on the last four values. */
  lemma PredictorFormula(f: Rhs, dt: real, ts: seq<real>, us: seq<real>)
    requires 4 <= |us| <= |ts|
    ensures var i := |us| - 1;
      Predictor(f, dt)(ts, us) ==
      us[i] + dt / 24.0 * (55.0 * f(ts[i], us[i]) - 59.0 * f(ts[i - 1], us[i - 1])
        + 37.0 * f(ts[i - 2], us[i - 2]) + 9.0 * f(ts[i - 3], us[i - 3]))
  {
  }

  /** With the sign as written the predictor is not even consistent:
      for f = 1 on the exact values u = t over t = 0, 1, 2, 3 it predicts
      4.75 at t = 4 where the solution, and the four-step
      Adams-Bashforth formula, give 4. */
  lemma PredictorMissesConstant()
    ensures Predictor(Affine(1.0, 0.0), 1.0)([0.0, 1.0, 2.0, 3.0, 4.0], [0.0, 1.0, 2.0, 3.0]) == 4.75
    ensures AdamsBashforth4.Update(Affine(1.0, 0.0), 1.0)([0.0, 1.0, 2.0, 3.0, 4.0], [0.0, 1.0, 2.0, 3.0]) == 4.0
    ensures AffineSolution(1.0, 0.0, 0.0, 0.0, 4.0) == 4.0
  {
    PredictorFormula(Affine(1.0, 0.0), 1.0, [0.0, 1.0, 2.0, 3.0, 4.0], [0.0, 1.0, 2.0, 3.0]);
    AdamsBashforth4.UpdateFormula(Affine(1.0, 0.0), 1.0, [0.0, 1.0, 2.0, 3.0, 4.0], [0.0, 1.0, 2.0, 3.0]);
  }

  /** The Adams-Moulton corrector: the value at t_{i+1} from the
      points up to t_i and the slope phi at t_{i+1}. */
  function Corrector(f: Rhs, dt: real): Implicit
  {
    (ts: seq<real>, us: seq<real>, phi: real) =>
      var i := |us| - 1;
      At(us, i) + dt / 24.0 * (9.0 * phi + 19.0 * f(At(ts, i), At(us, i)) - 5.0 * f(At(ts, i - 1), At(us, i - 1))
        + 1.0 * f(At(ts, i - 2), At(us, i - 2)))
  }

  /** The corrector written out. */
  lemma CorrectorFormula(f: Rhs, dt: real, ts: seq<real>, us: seq<real>, phi: real)
    requires 3 <= |us| <= |ts|
    ensures var i := |us| - 1;
      Corrector(f, dt)(ts, us, phi) ==
      us[i] + dt / 24.0 * (9.0 * phi + 19.0 * f(ts[i], us[i]) - 5.0 * f(ts[i - 1], us[i - 1])
        + 1.0 * f(ts[i - 2], us[i - 2]))
  {
  }

  /** The predictor-corrector step of the solver. */
  function PredictCorrect(f: Rhs, dt: real, passes: nat): Rule
  {
    PCRule(f, Predictor(f, dt), Corrector(f, dt), passes)
  }

  /** The values u_0 .. u_n of the solver when every corrector loop is
      allowed `passes` passes. */
  function Path(f: Rhs, t0: real, dt: real, u0: real, n: nat, passes: nat): seq<real>
  {
    Trajectory(StepOf(RungeKutta4Step, f, dt), 3, PredictCorrect(f, dt, passes), t0, dt, u0, n)
  }

  /** Every corrector loop up to point n converges within `passes`
      passes. */
  ghost predicate Converge(f: Rhs, t0: real, dt: real, u0: real, n: nat, passes: nat)
  {
    AllConverge(StepOf(RungeKutta4Step, f, dt), 3, f, Predictor(f, dt), Corrector(f, dt), passes, t0, dt, u0, n)
  }

  /** t[i] = t[i-1] + dt; u[1] .. u[3] are steps of classical Runge-Kutta from the
      point before, and every later u[i] is the corrected value from the
      points before it (PCRuleCloses says what it satisfies). */
  lemma {:induction false} Recurrence(f: Rhs, t0: real, dt: real, u0: real, n: nat, passes: nat, i: nat)
    requires 1 <= i <= n
    ensures var ts, vs := Times(t0, dt, n), Path(f, t0, dt, u0, n, passes);
      && ts[i] == ts[i - 1] + dt
      && vs[i] == if i <= 3 then StepOf(RungeKutta4Step, f, dt)(ts[i - 1], vs[i - 1])
                  else PredictCorrect(f, dt, passes)(ts[..i + 1], vs[..i])
  {
    TrajectoryStep(StepOf(RungeKutta4Step, f, dt), 3, PredictCorrect(f, dt, passes), t0, dt, u0, n, i - 1);
    TimesStep(t0, dt, n, i - 1);
  }

  /** The corrector weights sum to 1 and their first moment about t_i is
      1/2, so on the slopes of an affine right-hand side the corrector
      advances by dt times the slope at the middle of the step. */
  lemma CorrectorWeights(a: real, b: real, T: real, dt: real)
    ensures dt / 24.0 * (9.0 * (a + b * (T + dt)) + 19.0 * (a + b * T) - 5.0 * (a + b * (T - 1.0 * dt))
        + 1.0 * (a + b * (T - 2.0 * dt))) == dt * (a + b * (T + dt / 2.0))
  {
  }

  /** On an affine right-hand side the predictor-corrector step is
      exact, whatever the predictor. */
  lemma StepExactOnAffine(a: real, b: real, t0: real, u0: real, dt: real, pred: Rule, passes: nat)
    requires passes >= 1
    ensures var f := Affine(a, b);
      RuleExact(PCRule(f, pred, Corrector(f, dt), passes), 3, AffineCurve(a, b, t0, u0), t0, dt)
  {
    var f := Affine(a, b);
    var sol := AffineCurve(a, b, t0, u0);
    forall ts: seq<real>, us: seq<real> |
      3 < |us| && |ts| == |us| + 1 && EvenGrid(ts, t0, dt) && OnCurve(sol, ts, us)
      ensures PCRule(f, pred, Corrector(f, dt), passes)(ts, us) == sol(ts[|us|])
    {
      var i := |us| - 1;
      var T := ts[i];
      PCRuleOnAffine(a, b, pred, Corrector(f, dt), passes, ts, us);
      CorrectorFormula(f, dt, ts, us, a + b * ts[i + 1]);
      assert us[i] == sol(T);
      assert ts[i + 1] == T + dt;
      assert ts[i - 0] == ts[i - 1] + dt;
      assert ts[i - 1] == ts[i - 2] + dt;
      assert ts[i - 1] == T - 1.0 * dt;
      assert ts[i - 2] == T - 2.0 * dt;
      CorrectorWeights(a, b, T, dt);
      AffineIncrement(a, b, t0, u0, T, dt);
    }
  }

  /** On an affine right-hand side f(t, u) = a + b t every corrector loop
      converges after one pass and the values are the exact solution at
      every grid point. */
  lemma ExactOnAffine(a: real, b: real, t0: real, dt: real, u0: real, n: nat, passes: nat)
    requires passes >= 1
    ensures Converge(Affine(a, b), t0, dt, u0, n, passes)
    ensures forall i :: 0 <= i <= n ==>
      Path(Affine(a, b), t0, dt, u0, n, passes)[i] == AffineSolution(a, b, t0, u0, Times(t0, dt, n)[i])
  {
    var f := Affine(a, b);
    Steps.StepExactOnAffine(RungeKutta4Step, a, b, t0, u0, dt);
    StepExactOnAffine(a, b, t0, u0, dt, Predictor(f, dt), passes);
    TrajectoryExact(StepOf(RungeKutta4Step, f, dt), 3, PredictCorrect(f, dt, passes),
                    AffineCurve(a, b, t0, u0), t0, dt, u0, n);
    AffineConverges(StepOf(RungeKutta4Step, f, dt), 3, a, b, Predictor(f, dt), Corrector(f, dt), passes, t0, dt, u0, n);
  }

  /** The predictor-corrector step as evidently intended: the same
      corrector, started from the four-step Adams-Bashforth prediction,
      which an affine right-hand side already puts on the solution
      (AdamsBashforth4.UpdateExactOnAffine). */
  function IntendedPredictCorrect(f: Rhs, dt: real, passes: nat): Rule
  {
    PCRule(f, AdamsBashforth4.Update(f, dt), Corrector(f, dt), passes)
  }

  /** The values u_0 .. u_n of the solver with the intended predictor. */
  function IntendedPath(f: Rhs, t0: real, dt: real, u0: real, n: nat, passes: nat): seq<real>
  {
    Trajectory(StepOf(RungeKutta4Step, f, dt), 3, IntendedPredictCorrect(f, dt, passes), t0, dt, u0, n)
  }

  /** Every corrector loop of the intended solver up to point n
      converges within `passes` passes. */
  ghost predicate IntendedConverge(f: Rhs, t0: real, dt: real, u0: real, n: nat, passes: nat)
  {
    AllConverge(StepOf(RungeKutta4Step, f, dt), 3, f, AdamsBashforth4.Update(f, dt), Corrector(f, dt), passes, t0, dt, u0, n)
  }

  /** The intended solver is exact on an affine right-hand side
      f(t, u) = a + b t too. */
  lemma IntendedExactOnAffine(a: real, b: real, t0: real, dt: real, u0: real, n: nat, passes: nat)
    requires passes >= 1
    ensures IntendedConverge(Affine(a, b), t0, dt, u0, n, passes)
    ensures forall i :: 0 <= i <= n ==>
      IntendedPath(Affine(a, b), t0, dt, u0, n, passes)[i] == AffineSolution(a, b, t0, u0, Times(t0, dt, n)[i])
  {
    var f := Affine(a, b);
    Steps.StepExactOnAffine(RungeKutta4Step, a, b, t0, u0, dt);
    StepExactOnAffine(a, b, t0, u0, dt, AdamsBashforth4.Update(f, dt), passes);
    TrajectoryExact(StepOf(RungeKutta4Step, f, dt), 3, IntendedPredictCorrect(f, dt, passes),
                    AffineCurve(a, b, t0, u0), t0, dt, u0, n);
    AffineConverges(StepOf(RungeKutta4Step, f, dt), 3, a, b, AdamsBashforth4.Update(f, dt), Corrector(f, dt), passes, t0, dt, u0, n);
  }

  /** The fill both entry points share, for any start-up step g,
      predictor and corrector: t[0], u[0], then u[1] .. u[3] by g (u.at(k)
      throws when k is past the end of the grid), then the
      predictor-corrector loop for i = 3 .. Ns-1. */
  method FillWith(s: OdeSolver, g: Step, f: Rhs, pred: Rule, corr: Implicit, passes: nat) returns (r: Outcome)
    requires s.Valid()
    modifies s.t, s.u
    ensures r == if s.Ns < 3 then OutOfRange
                 else if AllConverge(g, 3, f, pred, corr, passes, s.initialTime, s.stepSize, s.initialValue, s.Ns) then Completed
                 else NotConverged
    ensures s.Ns < 0 ==> unchanged(s.t) && unchanged(s.u)
    ensures (r == Completed || (r == OutOfRange && s.Ns >= 0)) ==>
      && s.t[..] == Times(s.initialTime, s.stepSize, s.Ns)
      && s.u[..] == Trajectory(g, 3, PCRule(f, pred, corr, passes), s.initialTime, s.stepSize, s.initialValue, s.Ns)
  {
    var rule := PCRule(f, pred, corr, passes);
    var ok := s.Seed();
    if !ok {
      return OutOfRange;
    }
    ok := StartUp(s, g, 3, rule, 1);
    if !ok {
      return OutOfRange;
    }
    ok := StartUp(s, g, 3, rule, 2);
    if !ok {
      return OutOfRange;
    }
    ok := StartUp(s, g, 3, rule, 3);
    if !ok {
      return OutOfRange;
    }
    var h := PCContinue(s, g, 3, f, pred, corr, passes);
    r := OutcomeOf(h);
  }

  /** The fill with the solver's own start-up step, predictor and
      corrector. */
  method Fill(s: OdeSolver, passes: nat) returns (r: Outcome)
    requires s.Valid()
    modifies s.t, s.u
    ensures r == if s.Ns < 3 then OutOfRange
                 else if Converge(s.rhs.numericalFunction, s.initialTime, s.stepSize, s.initialValue, s.Ns, passes) then Completed
                 else NotConverged
    ensures s.Ns < 0 ==> unchanged(s.t) && unchanged(s.u)
    ensures (r == Completed || (r == OutOfRange && s.Ns >= 0)) ==>
      && s.t[..] == Times(s.initialTime, s.stepSize, s.Ns)
      && s.u[..] == Path(s.rhs.numericalFunction, s.initialTime, s.stepSize, s.initialValue, s.Ns, passes)
  {
    var f, dt := s.rhs.numericalFunction, s.stepSize;
    r := FillWith(s, StepOf(RungeKutta4Step, f, dt), f, Predictor(f, dt), Corrector(f, dt), passes);
  }

  /** The fill with the intended predictor. */
  method FillIntended(s: OdeSolver, passes: nat) returns (r: Outcome)
    requires s.Valid()
    modifies s.t, s.u
    ensures r == if s.Ns < 3 then OutOfRange
                 else if IntendedConverge(s.rhs.numericalFunction, s.initialTime, s.stepSize, s.initialValue, s.Ns, passes) then Completed
                 else NotConverged
    ensures s.Ns < 0 ==> unchanged(s.t) && unchanged(s.u)
    ensures (r == Completed || (r == OutOfRange && s.Ns >= 0)) ==>
      && s.t[..] == Times(s.initialTime, s.stepSize, s.Ns)
      && s.u[..] == IntendedPath(s.rhs.numericalFunction, s.initialTime, s.stepSize, s.initialValue, s.Ns, passes)
  {
    var f, dt := s.rhs.numericalFunction, s.stepSize;
    r := FillWith(s, StepOf(RungeKutta4Step, f, dt), f, AdamsBashforth4.Update(f, dt), Corrector(f, dt), passes);
  }

  class AdamsMoulton4Solver {
    const base: OdeSolver

    ghost predicate Valid()
      reads this, base
    {
      base.Valid()
    }

    constructor (that: RhsOdeProblem)
      requires that.dt != 0.0 && StepCount(that) >= -1
      ensures fresh(base) && fresh(base.rhs) && base.rhs.SameAs(that)
      ensures base.stepSize == that.dt && base.initialTime == that.t0
      ensures base.finalTime == that.tf && base.initialValue == that.u0
      ensures Valid() && base.Ns == StepCount(that) && fresh(base.t) && fresh(base.u) && fresh(base.uc)
    {
      base := new OdeSolver(that);
    }

    /** Every corrector loop of the grid converges within `passes`
        passes. */
    ghost predicate Converging(passes: nat)
      reads this, base, base.rhs
    {
      base.Ns >= 0 && Converge(base.rhs.numericalFunction, base.initialTime, base.stepSize, base.initialValue, base.Ns, passes)
    }

    /** The grid holds the times and the values of the solver over Ns
        steps. */
    ghost predicate Solved(passes: nat)
      reads this, base, base.rhs, base.t, base.u
    {
      && base.Ns >= 0
      && base.t[..] == Times(base.initialTime, base.stepSize, base.Ns)
      && base.u[..] == Path(base.rhs.numericalFunction, base.initialTime, base.stepSize, base.initialValue, base.Ns, passes)
    }

    /** solve(filename): throws before touching the grid when the file
        does not open; on a grid of fewer than 4 points a start-up
        write throws after the points before it are written. A corrector
        loop that does not converge would run forever; the model gives
        up after `passes` passes. */
    method SolveToFile(fileOpens: bool, passes: nat) returns (r: Outcome)
      requires Valid()
      modifies base.t, base.u
      ensures r == if !fileOpens then FileErrorThrown else if base.Ns < 3 then OutOfRange
                   else if Converging(passes) then Completed else NotConverged
      ensures r == FileErrorThrown ==> unchanged(base.t) && unchanged(base.u)
      ensures (r == Completed || (r == OutOfRange && base.Ns >= 0)) ==> Solved(passes)
    {
      if !fileOpens {
        return FileErrorThrown;
      }
      r := Fill(base, passes);
    }

    /** solve(): the same grid; an out-of-range access terminates. */
    method Solve(passes: nat) returns (r: Outcome)
      requires Valid()
      modifies base.t, base.u
      ensures r == if base.Ns < 3 then Terminated else if Converging(passes) then Completed else NotConverged
      ensures r == Completed ==> Solved(passes)
    {
      r := Fill(base, passes);
      if r == OutOfRange {
        r := Terminated;
      }
    }

    /** The grid holds the values of the solver with the intended
        predictor. */
    ghost predicate SolvedAsIntended(passes: nat)
      reads this, base, base.rhs, base.t, base.u
    {
      && base.Ns >= 0
      && base.t[..] == Times(base.initialTime, base.stepSize, base.Ns)
      && base.u[..] == IntendedPath(base.rhs.numericalFunction, base.initialTime, base.stepSize, base.initialValue, base.Ns, passes)
    }

    /** solve() as evidently intended: the four-step Adams-Bashforth
        predictor with the -9 weight. */
    method SolveCorrected(passes: nat) returns (r: Outcome)
      requires Valid()
      modifies base.t, base.u
      ensures r == if base.Ns < 3 then Terminated
                   else if IntendedConverge(base.rhs.numericalFunction, base.initialTime, base.stepSize,
                                            base.initialValue, base.Ns, passes) then Completed
                   else NotConverged
      ensures r == Completed ==> SolvedAsIntended(passes)
    {
      r := FillIntended(base, passes);
      if r == OutOfRange {
        r := Terminated;
      }
    }
  }
}
