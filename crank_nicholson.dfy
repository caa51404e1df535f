/** The Crank-Nicolson solver: an explicit Euler predictor grid u and a
    trapezoid corrector grid uc,
    uc[i] = uc[i-1] + dt/2 (f(t[i-1], uc[i-1]) + f(t[i], u[i])),
    applied once per step. The predictor grid is advanced from its own
    previous value, not from uc. */
module CrankNicholson {
  import opened Problem
  import opened Solver
  import opened RungeKuttaBase
  import opened Grid
  import opened Steps
  import ForwardEuler
  import Heun

  /** The corrected values uc_0 .. uc_n over the grid times ts and the
      predictor values ps: uc_0 = u0 and
      uc_k = uc_{k-1} + dt/2 (f(t_{k-1}, uc_{k-1}) + f(t_k, p_k)). */
  function Corrected(f: Rhs, dt: real, ts: seq<real>, ps: seq<real>, u0: real, n: nat): (cs: seq<real>)
    requires n < |ts| && n < |ps|
    ensures |cs| == n + 1 && cs[0] == u0
  {
    if n == 0 then [u0]
    else
      var c := Corrected(f, dt, ts, ps, u0, n - 1);
      c + [c[n - 1] + dt / 2.0 * (f(ts[n - 1], c[n - 1]) + f(ts[n], ps[n]))]
  }

  /** The corrected values of j steps are the start of those of n >= j
      steps. */
  lemma {:induction false} CorrectedPrefix(f: Rhs, dt: real, ts: seq<real>, ps: seq<real>, u0: real, j: nat, n: nat)
    requires j <= n < |ts| && n < |ps|
    ensures Corrected(f, dt, ts, ps, u0, n)[..j + 1] == Corrected(f, dt, ts, ps, u0, j)
  {
    if j < n {
      CorrectedPrefix(f, dt, ts, ps, u0, j, n - 1);
      assert Corrected(f, dt, ts, ps, u0, n)[..n] == Corrected(f, dt, ts, ps, u0, n - 1);
    }
  }

  /** uc[i] = uc[i-1] + dt/2 (f(t[i-1], uc[i-1]) + f(t[i], p[i])) at every
      point after the first. */
  lemma CorrectorStep(f: Rhs, dt: real, ts: seq<real>, ps: seq<real>, u0: real, n: nat, i: nat)
    requires 1 <= i <= n < |ts| && n < |ps|
    ensures var cs := Corrected(f, dt, ts, ps, u0, n);
      cs[i] == cs[i - 1] + dt / 2.0 * (f(ts[i - 1], cs[i - 1]) + f(ts[i], ps[i]))
  {
    var cs, ci, cp := Corrected(f, dt, ts, ps, u0, n), Corrected(f, dt, ts, ps, u0, i), Corrected(f, dt, ts, ps, u0, i - 1);
    CorrectedPrefix(f, dt, ts, ps, u0, i, n);
    assert cs[i] == ci[i] && cs[i - 1] == ci[i - 1];
    assert ci[i - 1] == cp[i - 1];
  }

  /** The corrected grid uc_0 .. uc_n of the solver, over the explicit
      Euler predictor grid. */
  function Path(f: Rhs, t0: real, dt: real, u0: real, n: nat): seq<real>
  {
    Corrected(f, dt, Times(t0, dt, n), ForwardEuler.Path(f, t0, dt, u0, n), u0, n)
  }

  /** On f(t, u) = a + b t the corrected values lie on the exact solution
      whatever the predictor: the trapezoid rule integrates a linear
      slope exactly. */
  lemma {:induction false} CorrectedExactOnAffine(a: real, b: real, t0: real, u0: real, dt: real,
                                                  ts: seq<real>, ps: seq<real>, n: nat)
    requires n < |ts| && n < |ps| && EvenGrid(ts, t0, dt)
    ensures OnCurve(AffineCurve(a, b, t0, u0), ts, Corrected(Affine(a, b), dt, ts, ps, u0, n))
  {
    var sol := AffineCurve(a, b, t0, u0);
    var cs := Corrected(Affine(a, b), dt, ts, ps, u0, n);
    if n == 0 {
      assert sol(ts[0]) == u0;
    } else {
      var c := Corrected(Affine(a, b), dt, ts, ps, u0, n - 1);
      CorrectedExactOnAffine(a, b, t0, u0, dt, ts, ps, n - 1);
      assert c[n - 1] == sol(ts[n - 1]) && ts[n] == ts[n - 1] + dt;
      assert Affine(a, b)(ts[n - 1], c[n - 1]) + Affine(a, b)(ts[n], ps[n]) == 2.0 * (a + b * (ts[n - 1] + dt / 2.0));
      AffineIncrement(a, b, t0, u0, ts[n - 1], dt);
      assert cs[n] == sol(ts[n]);
      assert cs == c + [cs[n]];
    }
  }

  /** Hence the corrected grid is the exact solution of an affine
      right-hand side at every grid point. */
  lemma ExactOnAffine(a: real, b: real, t0: real, dt: real, u0: real, n: nat)
    ensures forall i :: 0 <= i <= n ==>
      Path(Affine(a, b), t0, dt, u0, n)[i] == AffineSolution(a, b, t0, u0, Times(t0, dt, n)[i])
  {
    TimesEven(t0, dt, n);
    CorrectedExactOnAffine(a, b, t0, u0, dt, Times(t0, dt, n), ForwardEuler.Path(Affine(a, b), t0, dt, u0, n), n);
  }

  /** The first corrected value is one step of Heun's method, since the
      predictor and the corrected grid both start at u0; later points
      differ from Heun's method, whose predictor starts from uc[i-1]
      rather than u[i-1]. */
  lemma FirstStepIsHeun(f: Rhs, t0: real, dt: real, u0: real, n: nat)
    requires n >= 1
    ensures Path(f, t0, dt, u0, n)[1] == StepOf(HeunStep, f, dt)(t0, u0)
  {
    var ts, ps := Times(t0, dt, n), ForwardEuler.Path(f, t0, dt, u0, n);
    Recurrence(f, t0, dt, u0, n, 1);
    ForwardEuler.Formula(f, dt, t0, u0);
    Heun.Formula(f, dt, t0, u0);
  }

  /** Point i of the three grids ts, ps and cs follows from point i - 1
      by the time step, the predictor and the corrector. */
  ghost predicate GridStep(f: Rhs, dt: real, ts: seq<real>, ps: seq<real>, cs: seq<real>, i: nat)
    requires 1 <= i < |ts| && |ts| == |ps| == |cs|
  {
    && ts[i] == ts[i - 1] + dt
    && ps[i] == StepOf(ForwardEulerStep, f, dt)(ts[i - 1], ps[i - 1])
    && cs[i] == cs[i - 1] + dt / 2.0 * (f(ts[i - 1], cs[i - 1]) + f(ts[i], ps[i]))
  }

  /** Over any grid and predictor values that follow their steps at
      point i, the corrected values follow the corrector there. */
  lemma CorrectedGridStep(f: Rhs, dt: real, ts: seq<real>, ps: seq<real>, u0: real, n: nat, i: nat)
    requires 1 <= i <= n && |ts| == |ps| == n + 1
    requires ts[i] == ts[i - 1] + dt && ps[i] == StepOf(ForwardEulerStep, f, dt)(ts[i - 1], ps[i - 1])
    ensures GridStep(f, dt, ts, ps, Corrected(f, dt, ts, ps, u0, n), i)
  {
    CorrectorStep(f, dt, ts, ps, u0, n, i);
  }

  /** t[i] = t[i-1] + dt, u[i] = u[i-1] + dt f(t[i-1], u[i-1]) and
      uc[i] = uc[i-1] + dt/2 (f(t[i-1], uc[i-1]) + f(t[i], u[i])) on the
      grids of the model. */
  lemma Recurrence(f: Rhs, t0: real, dt: real, u0: real, n: nat, i: nat)
    requires 1 <= i <= n
    ensures GridStep(f, dt, Times(t0, dt, n), ForwardEuler.Path(f, t0, dt, u0, n), Path(f, t0, dt, u0, n), i)
  {
    TimesStep(t0, dt, n, i - 1);
    ForwardEuler.Recurrence(f, t0, dt, u0, n, i);
    CorrectedGridStep(f, dt, Times(t0, dt, n), ForwardEuler.Path(f, t0, dt, u0, n), u0, n, i);
  }

  /** So they follow it at every point. */
  lemma GridSteps(f: Rhs, t0: real, dt: real, u0: real, n: nat)
    ensures forall i :: 1 <= i <= n ==>
      GridStep(f, dt, Times(t0, dt, n), ForwardEuler.Path(f, t0, dt, u0, n), Path(f, t0, dt, u0, n), i)
  {
    forall i | 1 <= i <= n
      ensures GridStep(f, dt, Times(t0, dt, n), ForwardEuler.Path(f, t0, dt, u0, n), Path(f, t0, dt, u0, n), i)
    {
      Recurrence(f, t0, dt, u0, n, i);
    }
  }

  /** Point i of the loop: t.at(i) = t.at(i-1) + dt(), the predictor
      u.at(i) = u.at(i-1) + dt() f(t.at(i-1), u.at(i-1)), then the
      corrector uc.at(i); ts, ps and cs are the three grids the loop
      fills. */
  method Advance(s: OdeSolver, uc: array<real>, i: nat, ghost ts: seq<real>, ghost ps: seq<real>, ghost cs: seq<real>)
    requires s.Valid() && uc.Length == s.Ns + 1 && uc != s.t && uc != s.u
    requires 1 <= i <= s.Ns && |ts| == |ps| == |cs| == s.Ns + 1
    requires s.t[..i] == ts[..i] && s.u[..i] == ps[..i] && uc[..i] == cs[..i]
    requires GridStep(s.rhs.numericalFunction, s.stepSize, ts, ps, cs, i)
    modifies s.t, s.u, uc
    ensures s.t[..i + 1] == ts[..i + 1] && s.u[..i + 1] == ps[..i + 1] && uc[..i + 1] == cs[..i + 1]
  {
    var f, dt := s.rhs.numericalFunction, s.stepSize;
    assert s.t[i - 1] == ts[..i][i - 1] && s.u[i - 1] == ps[..i][i - 1] && uc[i - 1] == cs[..i][i - 1];
    var tq, uq, cq := s.t[..i], s.u[..i], uc[..i];
    ForwardEuler.Formula(f, dt, ts[i - 1], ps[i - 1]);
    var tNew := s.t[i - 1] + dt;
    var uNew := s.u[i - 1] + dt * f(s.t[i - 1], s.u[i - 1]);
    var cNew := uc[i - 1] + dt / 2.0 * (f(s.t[i - 1], uc[i - 1]) + f(tNew, uNew));
    assert tNew == ts[i] && uNew == ps[i] && cNew == cs[i];
    s.t[i] := tNew;
    s.u[i] := uNew;
    uc[i] := cNew;
    assert s.t[..i + 1] == tq + [ts[i]] && ts[..i + 1] == ts[..i] + [ts[i]];
    assert s.u[..i + 1] == uq + [ps[i]] && ps[..i + 1] == ps[..i] + [ps[i]];
    assert uc[..i + 1] == cq + [cs[i]] && cs[..i + 1] == cs[..i] + [cs[i]];
  }

  /** The loop over three grids that follow GridStep from t0, u0, u0:
      t.at(0), u.at(0) and uc.at(0), then Advance for i = 1 .. Ns. */
  method FillGrids(s: OdeSolver, uc: array<real>, ghost ts: seq<real>, ghost ps: seq<real>, ghost cs: seq<real>)
    requires s.Valid() && s.Ns >= 0 && uc.Length == s.Ns + 1 && uc != s.t && uc != s.u
    requires |ts| == |ps| == |cs| == s.Ns + 1
    requires ts[0] == s.initialTime && ps[0] == s.initialValue && cs[0] == s.initialValue
    requires forall i :: 1 <= i <= s.Ns ==> GridStep(s.rhs.numericalFunction, s.stepSize, ts, ps, cs, i)
    modifies s.t, s.u, uc
    ensures s.t[..] == ts && s.u[..] == ps && uc[..] == cs
  {
    var ok := s.Seed();
    uc[0] := s.initialValue;
    var i := 1;
    while i <= s.Ns
      invariant 1 <= i <= s.Ns + 1
      invariant s.t[..i] == ts[..i] && s.u[..i] == ps[..i] && uc[..i] == cs[..i]
    {
      Advance(s, uc, i, ts, ps, cs);
      i := i + 1;
    }
    assert s.t[..] == s.t[..s.Ns + 1];
    assert s.u[..] == s.u[..s.Ns + 1];
    assert uc[..] == uc[..s.Ns + 1];
  }

  /** The body both overloads share, filling t, the predictor grid u and
      the corrected grid uc. */
  method FillWith(s: OdeSolver, uc: array<real>)
    requires s.Valid() && s.Ns >= 0 && uc.Length == s.Ns + 1 && uc != s.t && uc != s.u
    modifies s.t, s.u, uc
    ensures s.t[..] == Times(s.initialTime, s.stepSize, s.Ns)
    ensures s.u[..] == ForwardEuler.Path(s.rhs.numericalFunction, s.initialTime, s.stepSize, s.initialValue, s.Ns)
    ensures uc[..] == Path(s.rhs.numericalFunction, s.initialTime, s.stepSize, s.initialValue, s.Ns)
  {
    var f, dt := s.rhs.numericalFunction, s.stepSize;
    GridSteps(f, s.initialTime, dt, s.initialValue, s.Ns);
    FillGrids(s, uc, Times(s.initialTime, dt, s.Ns), ForwardEuler.Path(f, s.initialTime, dt, s.initialValue, s.Ns),
              Path(f, s.initialTime, dt, s.initialValue, s.Ns));
  }

  class CrankNicholsonSolver {
    const rk: RungeKutta

    ghost predicate Valid()
      reads this, rk, rk.base
    {
      rk.Valid()
    }

    constructor (that: RhsOdeProblem)
      requires that.dt != 0.0 && StepCount(that) >= 0
      ensures fresh(rk) && fresh(rk.base) && fresh(rk.base.rhs) && rk.base.rhs.SameAs(that)
      ensures rk.base.stepSize == that.dt && rk.base.initialTime == that.t0
      ensures rk.base.finalTime == that.tf && rk.base.initialValue == that.u0
      ensures Valid() && rk.base.Ns == StepCount(that)
    {
      rk := new RungeKutta(that);
    }

    /** t holds the grid, u the explicit Euler predictor grid and uc the
        corrected grid, the solution the solver writes out. */
    ghost predicate Solved()
      reads this, rk, rk.base, rk.base.rhs, rk.base.t, rk.base.u, rk.uc
    {
      var s := rk.base;
      && s.Ns >= 0
      && s.t[..] == Times(s.initialTime, s.stepSize, s.Ns)
      && s.u[..] == ForwardEuler.Path(s.rhs.numericalFunction, s.initialTime, s.stepSize, s.initialValue, s.Ns)
      && rk.uc[..] == Path(s.rhs.numericalFunction, s.initialTime, s.stepSize, s.initialValue, s.Ns)
    }

    /** solve(filename): throws before touching the grids when the file
        does not open; otherwise fills all three. */
    method SolveToFile(fileOpens: bool) returns (r: Outcome)
      requires Valid()
      modifies rk.base.t, rk.base.u, rk.uc
      ensures r == if fileOpens then Completed else FileErrorThrown
      ensures r == FileErrorThrown ==> unchanged(rk.base.t) && unchanged(rk.base.u) && unchanged(rk.uc)
      ensures r == Completed ==> Solved()
    {
      if !fileOpens {
        return FileErrorThrown;
      }
      FillWith(rk.base, rk.uc);
      r := Completed;
    }

    /** solve(): the same three grids. */
    method Solve() returns (r: Outcome)
      requires Valid()
      modifies rk.base.t, rk.base.u, rk.uc
      ensures r == Completed && Solved()
    {
      FillWith(rk.base, rk.uc);
      r := Completed;
    }
  }
}
