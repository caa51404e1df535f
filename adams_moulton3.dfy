/** The Adams-Moulton predictor-corrector solver of third order: 2 start-up
    steps of Heun's method, then at every later point a predicted value
    iterated to convergence through the 2-step Adams-Moulton corrector. */
module AdamsMoulton3 {
  import opened Problem
  import opened Solver
  import opened Grid
  import opened Steps
  import opened Explicit
  import opened AdamsMethods
  import AdamsBashforth3

  /** The Adams-Moulton corrector: the value at t_{i+1} from the
      points up to t_i and the slope phi at t_{i+1}. */
  function Corrector(f: Rhs, dt: real): Implicit
  {
    (ts: seq<real>, us: seq<real>, phi: real) =>
      var i := |us| - 1;
      At(us, i) + dt / 12.0 * (5.0 * phi + 8.0 * f(At(ts, i), At(us, i)) - 1.0 * f(At(ts, i - 1), At(us, i - 1)))
  }

  /** The corrector written out. */
  lemma CorrectorFormula(f: Rhs, dt: real, ts: seq<real>, us: seq<real>, phi: real)
    requires 2 <= |us| <= |ts|
    ensures var i := |us| - 1;
      Corrector(f, dt)(ts, us, phi) ==
      us[i] + dt / 12.0 * (5.0 * phi + 8.0 * f(ts[i], us[i]) - 1.0 * f(ts[i - 1], us[i - 1]))
  {
  }

  /** The predictor-corrector step of the solver. */
  function PredictCorrect(f: Rhs, dt: real, passes: nat): Rule
  {
    PCRule(f, AdamsBashforth3.Update(f, dt), Corrector(f, dt), passes)
  }

  /** The values u_0 .. u_n of the solver when every corrector loop is
      allowed `passes` passes. */
  function Path(f: Rhs, t0: real, dt: real, u0: real, n: nat, passes: nat): seq<real>
  {
    Trajectory(StepOf(HeunStep, f, dt), 2, PredictCorrect(f, dt, passes), t0, dt, u0, n)
  }

  /** Every corrector loop up to point n converges within `passes`
      passes. */
  ghost predicate Converge(f: Rhs, t0: real, dt: real, u0: real, n: nat, passes: nat)
  {
    AllConverge(StepOf(HeunStep, f, dt), 2, f, AdamsBashforth3.Update(f, dt), Corrector(f, dt), passes, t0, dt, u0, n)
  }

  /** t[i] = t[i-1] + dt; u[1] .. u[2] are steps of Heun's method from the
      point before, and every later u[i] is the corrected value from the
      points before it (PCRuleCloses says what it satisfies). */
  lemma {:induction false} Recurrence(f: Rhs, t0: real, dt: real, u0: real, n: nat, passes: nat, i: nat)
    requires 1 <= i <= n
    ensures var ts, vs := Times(t0, dt, n), Path(f, t0, dt, u0, n, passes);
      && ts[i] == ts[i - 1] + dt
      && vs[i] == if i <= 2 then StepOf(HeunStep, f, dt)(ts[i - 1], vs[i - 1])
                  else PredictCorrect(f, dt, passes)(ts[..i + 1], vs[..i])
  {
    TrajectoryStep(StepOf(HeunStep, f, dt), 2, PredictCorrect(f, dt, passes), t0, dt, u0, n, i - 1);
    TimesStep(t0, dt, n, i - 1);
  }

  /** The corrector weights sum to 1 and their first moment about t_i is
      1/2, so on the slopes of an affine right-hand side the corrector
      advances by dt times the slope at the middle of the step. */
  lemma CorrectorWeights(a: real, b: real, T: real, dt: real)
    ensures dt / 12.0 * (5.0 * (a + b * (T + dt)) + 8.0 * (a + b * T) - 1.0 * (a + b * (T - 1.0 * dt))) == dt * (a + b * (T + dt / 2.0))
  {
  }

  /** On an affine right-hand side the predictor-corrector step is
      exact, whatever the predictor. */
  lemma StepExactOnAffine(a: real, b: real, t0: real, u0: real, dt: real, passes: nat)
    requires passes >= 1
    ensures var f := Affine(a, b);
      RuleExact(PredictCorrect(f, dt, passes), 2, AffineCurve(a, b, t0, u0), t0, dt)
  {
    var f := Affine(a, b);
    var sol := AffineCurve(a, b, t0, u0);
    forall ts: seq<real>, us: seq<real> |
      2 < |us| && |ts| == |us| + 1 && EvenGrid(ts, t0, dt) && OnCurve(sol, ts, us)
      ensures PredictCorrect(f, dt, passes)(ts, us) == sol(ts[|us|])
    {
      var i := |us| - 1;
      var T := ts[i];
      PCRuleOnAffine(a, b, AdamsBashforth3.Update(f, dt), Corrector(f, dt), passes, ts, us);
      CorrectorFormula(f, dt, ts, us, a + b * ts[i + 1]);
      assert us[i] == sol(T);
      assert ts[i + 1] == T + dt;
      assert ts[i - 0] == ts[i - 1] + dt;
      assert ts[i - 1] == T - 1.0 * dt;
      CorrectorWeights(a, b, T, dt);
      AffineIncrement(a, b, t0, u0, T, dt);
    }
  }

  /** On an affine right-hand side f(t, u) = a + b t every corrector loop
      converges after one pass and the values are the exact solution at
      every grid point. */
  lemma ExactOnAffine(a: real, b: real, t0: real, dt: real, u0: real, n: nat, passes: nat)
    requires passes >= 1
    ensures Converge(Affine(a, b), t0, dt, u0, n, passes)
    ensures forall i :: 0 <= i <= n ==>
      Path(Affine(a, b), t0, dt, u0, n, passes)[i] == AffineSolution(a, b, t0, u0, Times(t0, dt, n)[i])
  {
    var f := Affine(a, b);
    Steps.StepExactOnAffine(HeunStep, a, b, t0, u0, dt);
    StepExactOnAffine(a, b, t0, u0, dt, passes);
    TrajectoryExact(StepOf(HeunStep, f, dt), 2, PredictCorrect(f, dt, passes),
                    AffineCurve(a, b, t0, u0), t0, dt, u0, n);
    AffineConverges(StepOf(HeunStep, f, dt), 2, a, b, AdamsBashforth3.Update(f, dt), Corrector(f, dt), passes, t0, dt, u0, n);
  }

  /** The fill both entry points share, for any start-up step g,
      predictor and corrector: t[0], u[0], then u[1] .. u[2] by g (u.at(k)
      throws when k is past the end of the grid), then the
      predictor-corrector loop for i = 2 .. Ns-1. */
  method FillWith(s: OdeSolver, g: Step, f: Rhs, pred: Rule, corr: Implicit, passes: nat) returns (r: Outcome)
    requires s.Valid()
    modifies s.t, s.u
    ensures r == if s.Ns < 2 then OutOfRange
                 else if AllConverge(g, 2, f, pred, corr, passes, s.initialTime, s.stepSize, s.initialValue, s.Ns) then Completed
                 else NotConverged
    ensures s.Ns < 0 ==> unchanged(s.t) && unchanged(s.u)
    ensures (r == Completed || (r == OutOfRange && s.Ns >= 0)) ==>
      && s.t[..] == Times(s.initialTime, s.stepSize, s.Ns)
      && s.u[..] == Trajectory(g, 2, PCRule(f, pred, corr, passes), s.initialTime, s.stepSize, s.initialValue, s.Ns)
  {
    var rule := PCRule(f, pred, corr, passes);
    var ok := s.Seed();
    if !ok {
      return OutOfRange;
    }
    ok := StartUp(s, g, 2, rule, 1);
    if !ok {
      return OutOfRange;
    }
    ok := StartUp(s, g, 2, rule, 2);
    if !ok {
      return OutOfRange;
    }
    var h := PCContinue(s, g, 2, f, pred, corr, passes);
    r := OutcomeOf(h);
  }

  /** The fill with the solver's own start-up step, predictor and
      corrector. */
  method Fill(s: OdeSolver, passes: nat) returns (r: Outcome)
    requires s.Valid()
    modifies s.t, s.u
    ensures r == if s.Ns < 2 then OutOfRange
                 else if Converge(s.rhs.numericalFunction, s.initialTime, s.stepSize, s.initialValue, s.Ns, passes) then Completed
                 else NotConverged
    ensures s.Ns < 0 ==> unchanged(s.t) && unchanged(s.u)
    ensures (r == Completed || (r == OutOfRange && s.Ns >= 0)) ==>
      && s.t[..] == Times(s.initialTime, s.stepSize, s.Ns)
      && s.u[..] == Path(s.rhs.numericalFunction, s.initialTime, s.stepSize, s.initialValue, s.Ns, passes)
  {
    var f, dt := s.rhs.numericalFunction, s.stepSize;
    r := FillWith(s, StepOf(HeunStep, f, dt), f, AdamsBashforth3.Update(f, dt), Corrector(f, dt), passes);
  }

  class AdamsMoulton3Solver {
    const base: OdeSolver

    ghost predicate Valid()
      reads this, base
    {
      base.Valid()
    }

    constructor (that: RhsOdeProblem)
      requires that.dt != 0.0 && StepCount(that) >= -1
      ensures fresh(base) && fresh(base.rhs) && base.rhs.SameAs(that)
      ensures base.stepSize == that.dt && base.initialTime == that.t0
      ensures base.finalTime == that.tf && base.initialValue == that.u0
      ensures Valid() && base.Ns == StepCount(that) && fresh(base.t) && fresh(base.u) && fresh(base.uc)
    {
      base := new OdeSolver(that);
    }

    /** Every corrector loop of the grid converges within `passes`
        passes. */
    ghost predicate Converging(passes: nat)
      reads this, base, base.rhs
    {
      base.Ns >= 0 && Converge(base.rhs.numericalFunction, base.initialTime, base.stepSize, base.initialValue, base.Ns, passes)
    }

    /** The grid holds the times and the values of the solver over Ns
        steps. */
    ghost predicate Solved(passes: nat)
      reads this, base, base.rhs, base.t, base.u
    {
      && base.Ns >= 0
      && base.t[..] == Times(base.initialTime, base.stepSize, base.Ns)
      && base.u[..] == Path(base.rhs.numericalFunction, base.initialTime, base.stepSize, base.initialValue, base.Ns, passes)
    }

    /** solve(filename): throws before touching the grid when the file
        does not open; on a grid of fewer than 3 points a start-up
        write throws after the points before it are written. A corrector
        loop that does not converge would run forever; the model gives
        up after `passes` passes. */
    method SolveToFile(fileOpens: bool, passes: nat) returns (r: Outcome)
      requires Valid()
      modifies base.t, base.u
      ensures r == if !fileOpens then FileErrorThrown else if base.Ns < 2 then OutOfRange
                   else if Converging(passes) then Completed else NotConverged
      ensures r == FileErrorThrown ==> unchanged(base.t) && unchanged(base.u)
      ensures (r == Completed || (r == OutOfRange && base.Ns >= 0)) ==> Solved(passes)
    {
      if !fileOpens {
        return FileErrorThrown;
      }
      r := Fill(base, passes);
    }

    /** solve(): the same grid; an out-of-range access terminates. */
    method Solve(passes: nat) returns (r: Outcome)
      requires Valid()
      modifies base.t, base.u
      ensures r == if base.Ns < 2 then Terminated else if Converging(passes) then Completed else NotConverged
      ensures r == Completed ==> Solved(passes)
    {
      r := Fill(base, passes);
      if r == OutOfRange {
        r := Terminated;
      }
    }
  }
}
