/** The time grid every solver builds and the value sequences its
    recurrences produce, stated independently of any particular formula:
    a formula enters as a function value. */
module Grid {
  import opened Problem

  /** The grid times t_0 .. t_n as the solvers build them: t[0] = t0 and
      t[k] = t[k-1] + dt. */
  function Times(t0: real, dt: real, n: nat): (ts: seq<real>)
    ensures |ts| == n + 1 && ts[0] == t0
  {
    if n == 0 then [t0]
    else
      var p := Times(t0, dt, n - 1);
      p + [p[n - 1] + dt]
  }

  /** A grid of m steps is the start of any longer grid. */
  lemma {:induction false} TimesPrefix(t0: real, dt: real, m: nat, n: nat)
    requires m <= n
    ensures Times(t0, dt, n)[..m + 1] == Times(t0, dt, m)
  {
    if m < n {
      TimesPrefix(t0, dt, m, n - 1);
      assert Times(t0, dt, n)[..n] == Times(t0, dt, n - 1);
    }
  }

  /** Consecutive grid times are dt apart. */
  lemma TimesStep(t0: real, dt: real, n: nat, k: nat)
    requires k < n
    ensures Times(t0, dt, n)[k + 1] == Times(t0, dt, n)[k] + dt
  {
    TimesPrefix(t0, dt, k + 1, n);
    assert Times(t0, dt, n)[k] == Times(t0, dt, k + 1)[k];
  }

  /** Over the reals the grid is evenly spaced: t_k = t0 + k dt. */
  lemma {:induction false} TimesClosedForm(t0: real, dt: real, n: nat, k: nat)
    requires k <= n
    ensures Times(t0, dt, n)[k] == t0 + (k as real) * dt
  {
    if k > 0 {
      TimesClosedForm(t0, dt, n, k - 1);
      TimesStep(t0, dt, n, k - 1);
    }
  }

  /** An explicit one-step formula: the next value from (t_k, u_k). */
  type Step = (real, real) -> real

  /** A formula for u_{k+1} from the times t_0 .. t_{k+1} and the values
      u_0 .. u_k written so far. */
  type Rule = (seq<real>, seq<real>) -> real

  /** s.at(j) on the entries written so far; the recurrences only read
      entries that exist, so the fallback value is never used. */
  function At(s: seq<real>, j: int): real
  {
    if 0 <= j < |s| then s[j] else 0.0
  }

  /** A one-step formula read as a rule: it looks at the last point only. */
  function OneStep(g: Step): Rule
  {
    (ts: seq<real>, us: seq<real>) => g(At(ts, |us| - 1), At(us, |us| - 1))
  }

  /** The start-up formula of a solver without start-up steps (m = 0),
      which its trajectory never applies. */
  function NoStartUp(): Step
  {
    (tt: real, uu: real) => uu
  }

  /** The values u_0 .. u_n of a solver that takes its first m steps by
      the start-up formula and every later step by the rule. */
  function Trajectory(start: Step, m: nat, rule: Rule, t0: real, dt: real, u0: real, n: nat): (vs: seq<real>)
    ensures |vs| == n + 1 && vs[0] == u0
  {
    if n == 0 then [u0]
    else
      var p := Trajectory(start, m, rule, t0, dt, u0, n - 1);
      var ts := Times(t0, dt, n);
      p + [if n - 1 < m then start(ts[n - 1], p[n - 1]) else rule(ts, p)]
  }

  /** A trajectory of m steps is the start of any longer one. */
  lemma {:induction false} TrajectoryPrefix(start: Step, m: nat, rule: Rule, t0: real, dt: real, u0: real, j: nat, n: nat)
    requires j <= n
    ensures Trajectory(start, m, rule, t0, dt, u0, n)[..j + 1] == Trajectory(start, m, rule, t0, dt, u0, j)
  {
    if j < n {
      TrajectoryPrefix(start, m, rule, t0, dt, u0, j, n - 1);
      assert Trajectory(start, m, rule, t0, dt, u0, n)[..n] == Trajectory(start, m, rule, t0, dt, u0, n - 1);
    }
  }

  /** Every entry after the first is the start-up formula (for the first
      m steps) or the rule applied to the grid up to it and the values
      before it. */
  lemma TrajectoryStep(start: Step, m: nat, rule: Rule, t0: real, dt: real, u0: real, n: nat, k: nat)
    requires k < n
    ensures var vs, ts := Trajectory(start, m, rule, t0, dt, u0, n), Times(t0, dt, n);
      vs[k + 1] == if k < m then start(ts[k], vs[k]) else rule(ts[..k + 2], vs[..k + 1])
  {
    TrajectoryPrefix(start, m, rule, t0, dt, u0, k + 1, n);
    TrajectoryPrefix(start, m, rule, t0, dt, u0, k, n);
    TimesPrefix(t0, dt, k + 1, n);
    assert Trajectory(start, m, rule, t0, dt, u0, n)[k] == Trajectory(start, m, rule, t0, dt, u0, k + 1)[k];
    assert Times(t0, dt, n)[k] == Times(t0, dt, k + 1)[k];
  }

  /** A solver whose rule is a one-step formula, used as its start-up
      formula too, applies that formula at every point. */
  lemma OneStepTrajectory(g: Step, m: nat, t0: real, dt: real, u0: real, n: nat, i: nat)
    requires 1 <= i <= n
    ensures var ts, vs := Times(t0, dt, n), Trajectory(g, m, OneStep(g), t0, dt, u0, n);
      ts[i] == ts[i - 1] + dt && vs[i] == g(ts[i - 1], vs[i - 1])
  {
    var ts, vs := Times(t0, dt, n), Trajectory(g, m, OneStep(g), t0, dt, u0, n);
    TrajectoryStep(g, m, OneStep(g), t0, dt, u0, n, i - 1);
    TimesStep(t0, dt, n, i - 1);
    assert At(ts[..i + 1], i - 1) == ts[i - 1];
    assert At(vs[..i], i - 1) == vs[i - 1];
  }

  /** Two solvers that share the start-up formula agree on their first
      m + 1 values whatever their rules. */
  lemma {:induction false} TrajectoryStartUp(start: Step, m: nat, rule1: Rule, rule2: Rule, t0: real, dt: real, u0: real, n: nat)
    requires n <= m
    ensures Trajectory(start, m, rule1, t0, dt, u0, n) == Trajectory(start, m, rule2, t0, dt, u0, n)
  {
    if n > 0 {
      TrajectoryStartUp(start, m, rule1, rule2, t0, dt, u0, n - 1);
    }
  }

  // ---- the reference solution of the exactness properties ----

  /** The right-hand side f(t, u) = a + b t. */
  function Affine(a: real, b: real): Rhs
  {
    (tt: real, uu: real) => a + b * tt
  }

  /** The right-hand side f(t, u) = c + lam u. */
  function Linear(c: real, lam: real): Rhs
  {
    (tt: real, uu: real) => c + lam * uu
  }

  /** The solution of u' = a + b t with u(t0) = u0. */
  function AffineSolution(a: real, b: real, t0: real, u0: real, tt: real): real
  {
    u0 + a * (tt - t0) + b / 2.0 * (tt * tt - t0 * t0)
  }

  /** Over a step of size h the affine solution grows by h times the
      slope at the middle of the step. */
  lemma AffineIncrement(a: real, b: real, t0: real, u0: real, tt: real, h: real)
    ensures AffineSolution(a, b, t0, u0, tt + h) == AffineSolution(a, b, t0, u0, tt) + h * (a + b * (tt + h / 2.0))
  {
    calc {
      (tt + h) * (tt + h) - t0 * t0;
      (tt * tt - t0 * t0) + h * (2.0 * tt + h);
    }
  }

  /** The affine solution as a curve t -> u(t). */
  function AffineCurve(a: real, b: real, t0: real, u0: real): real -> real
  {
    tt => AffineSolution(a, b, t0, u0, tt)
  }

  /** The values us lie on the curve at the grid times ts. */
  ghost predicate OnCurve(sol: real -> real, ts: seq<real>, us: seq<real>)
  {
    |us| <= |ts| && forall j :: 0 <= j < |us| ==> us[j] == sol(ts[j])
  }

  /** A start-up formula that carries the curve one step of size dt
      further. */
  ghost predicate StartExact(start: Step, sol: real -> real, dt: real)
  {
    forall tt: real :: start(tt, sol(tt)) == sol(tt + dt)
  }

  /** ts is an evenly spaced grid starting at t0 with spacing dt. */
  ghost predicate EvenGrid(ts: seq<real>, t0: real, dt: real)
  {
    |ts| > 0 && ts[0] == t0 && forall j :: 0 < j < |ts| ==> ts[j] == ts[j - 1] + dt
  }

  /** The grid the solvers build is evenly spaced. */
  lemma TimesEven(t0: real, dt: real, n: nat)
    ensures EvenGrid(Times(t0, dt, n), t0, dt)
  {
    forall j | 0 < j < n + 1
      ensures Times(t0, dt, n)[j] == Times(t0, dt, n)[j - 1] + dt
    {
      TimesStep(t0, dt, n, j - 1);
    }
  }

  /** A rule that, given more than m values on the curve over an even
      grid, produces the next value on the curve. */
  ghost predicate RuleExact(rule: Rule, m: nat, sol: real -> real, t0: real, dt: real)
  {
    forall ts: seq<real>, us: seq<real> {:trigger rule(ts, us)} ::
      m < |us| && |ts| == |us| + 1 && EvenGrid(ts, t0, dt) && OnCurve(sol, ts, us) ==>
      rule(ts, us) == sol(ts[|us|])
  }

  /** A solver whose start-up formula and rule are exact for a solution
      curve follows it at every grid point. */
  lemma {:induction false} TrajectoryExact(start: Step, m: nat, rule: Rule, sol: real -> real, t0: real, dt: real, u0: real, n: nat)
    requires u0 == sol(t0)
    requires m > 0 ==> StartExact(start, sol, dt)
    requires RuleExact(rule, m, sol, t0, dt)
    ensures OnCurve(sol, Times(t0, dt, n), Trajectory(start, m, rule, t0, dt, u0, n))
  {
    if n > 0 {
      TrajectoryExact(start, m, rule, sol, t0, dt, u0, n - 1);
      var p := Trajectory(start, m, rule, t0, dt, u0, n - 1);
      var ts := Times(t0, dt, n);
      TimesPrefix(t0, dt, n - 1, n);
      assert OnCurve(sol, ts, p) by {
        forall j | 0 <= j < n
          ensures p[j] == sol(ts[j])
        {
          assert ts[j] == Times(t0, dt, n - 1)[j];
        }
      }
      TimesEven(t0, dt, n);
      var next := Trajectory(start, m, rule, t0, dt, u0, n)[n];
      if n - 1 < m {
        TimesStep(t0, dt, n, n - 1);
        assert next == start(ts[n - 1], sol(ts[n - 1]));
      } else {
        assert next == rule(ts, p);
      }
      assert next == sol(ts[n]);
    }
  }
}
