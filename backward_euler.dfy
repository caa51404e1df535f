/** The implicit Euler solver: u[i] is sought as the root of the implicit
    Euler equation v = u[i-1] + dt f(t[i], v) by a Newton iteration whose
    slope is the forward difference of f in u, started from an explicit
    predictor evaluated at the new time. */
module BackwardEuler {
  import opened Problem
  import opened Solver
  import opened Grid
  import opened Explicit

  /** How the Newton loop of one step ends: with its last two iterates,
      at a zero denominator, or, in the model only, when its passes are
      used up. */
  datatype NewtonEnd = Settled(prev: real, last: real) | Singular | Exhausted

  /** The residual of the implicit Euler equation at v. */
  function Residual(f: Rhs, dt: real, t1: real, uPrev: real, v: real): real
  {
    v - (uPrev + dt * f(t1, v))
  }

  /** The slope of the residual in v as the solver estimates it, with
      dfdt, the forward difference of f in u. */
  function Slope(f: Rhs, dt: real, t1: real, v: real): real
  {
    1.0 - dt * ForwardDifference(f, t1, v)
  }

  /** The Newton loop from x, allowing `passes` passes: each pass takes
      y = x - Residual(x) / Slope(x) and stops once |y - x| <= Toll,
      continuing from y otherwise. */
  function Newton(f: Rhs, dt: real, t1: real, uPrev: real, x: real, passes: nat): NewtonEnd
    decreases passes
  {
    if passes == 0 then Exhausted
    else if Slope(f, dt, t1, x) == 0.0 then Singular
    else
      var y := x - Residual(f, dt, t1, uPrev, x) / Slope(f, dt, t1, x);
      if Abs(y - x) <= Toll then Settled(x, y) else Newton(f, dt, t1, uPrev, y, passes - 1)
  }

  /** |r| <= Toll |s| when |r / s| <= Toll. */
  lemma QuotientBound(r: real, s: real)
    requires s != 0.0 && Abs(r / s) <= Toll
    ensures Abs(r) <= Toll * Abs(s)
  {
    var q := r / s;
    assert r == q * s;
    if s > 0.0 {
      assert Abs(r) == Abs(q) * s;
    } else {
      assert Abs(r) == Abs(q) * -s;
    }
  }

  /** A settled loop ends with one Newton step from its previous iterate
      that moves less than Toll; so the residual of the implicit Euler
      equation there is at most Toll times the slope. */
  lemma {:induction false} NewtonCloses(f: Rhs, dt: real, t1: real, uPrev: real, x: real, passes: nat)
    decreases passes
    ensures var e := Newton(f, dt, t1, uPrev, x, passes);
      e.Settled? ==>
        && Slope(f, dt, t1, e.prev) != 0.0
        && e.last == e.prev - Residual(f, dt, t1, uPrev, e.prev) / Slope(f, dt, t1, e.prev)
        && Abs(e.last - e.prev) <= Toll
        && Abs(Residual(f, dt, t1, uPrev, e.prev)) <= Toll * Abs(Slope(f, dt, t1, e.prev))
  {
    if passes > 0 && Slope(f, dt, t1, x) != 0.0 {
      var s := Slope(f, dt, t1, x);
      var r := Residual(f, dt, t1, uPrev, x);
      var y := x - r / s;
      if Abs(y - x) <= Toll {
        assert y - x == -(r / s);
        QuotientBound(r, s);
      } else {
        NewtonCloses(f, dt, t1, uPrev, y, passes - 1);
      }
    }
  }

  /** The forward difference of a linear right-hand side is its
      coefficient. */
  lemma LinearSlope(c: real, lam: real, dt: real, t1: real, v: real)
    ensures Slope(Linear(c, lam), dt, t1, v) == 1.0 - dt * lam
  {
    var f := Linear(c, lam);
    assert f(t1, v + Eps) - f(t1, v) == lam * Eps;
  }

  /** On f(t, u) = c + lam u with 1 - dt lam != 0 the first Newton step
      lands on the root of the implicit Euler equation and the next one
      stays there, so two passes always settle, on that root. */
  lemma NewtonOnLinear(c: real, lam: real, dt: real, t1: real, uPrev: real, x: real, passes: nat)
    requires passes >= 2 && 1.0 - dt * lam != 0.0
    ensures var e := Newton(Linear(c, lam), dt, t1, uPrev, x, passes);
      e.Settled? && (1.0 - dt * lam) * e.last == uPrev + dt * c
  {
    var f := Linear(c, lam);
    var d := 1.0 - dt * lam;
    LinearSlope(c, lam, dt, t1, x);
    var y := x - Residual(f, dt, t1, uPrev, x) / d;
    assert Residual(f, dt, t1, uPrev, x) == d * x - (uPrev + dt * c);
    assert d * y == uPrev + dt * c;
    if Abs(y - x) > Toll {
      LinearSlope(c, lam, dt, t1, y);
      assert Residual(f, dt, t1, uPrev, y) == d * y - (uPrev + dt * c);
      assert Newton(f, dt, t1, uPrev, y, passes - 1) == Settled(y, y);
    }
  }

  /** The predictor uOld = u_{i-1} + dt f(t_i, u_{i-1}), with the slope
      at the new time t1 = t_i. */
  function Predictor(f: Rhs, dt: real, t1: real, uPrev: real): real
  {
    uPrev + dt * f(t1, uPrev)
  }

  /** How the Newton loop of the point at the new time t1 ends, from the
      previous value uPrev. */
  function StepEnd(f: Rhs, dt: real, passes: nat, t1: real, uPrev: real): NewtonEnd
  {
    Newton(f, dt, t1, uPrev, Predictor(f, dt, t1, uPrev), passes)
  }

  /** The value stored at t1: the last Newton iterate; the predictor when
      the loop does not settle (a value the solver never stores). */
  function StepValue(f: Rhs, dt: real, passes: nat, t1: real, uPrev: real): real
  {
    match StepEnd(f, dt, passes, t1, uPrev)
    case Settled(_, y) => y
    case _ => Predictor(f, dt, t1, uPrev)
  }

  /** The step as a rule: from the new time t_i and the value u_{i-1}. */
  function Update(f: Rhs, dt: real, passes: nat): Rule
  {
    (ts: seq<real>, us: seq<real>) => StepValue(f, dt, passes, At(ts, |us|), At(us, |us| - 1))
  }

  /** The rule written out. */
  lemma UpdateFormula(f: Rhs, dt: real, passes: nat, ts: seq<real>, us: seq<real>)
    requires 1 <= |us| < |ts|
    ensures Update(f, dt, passes)(ts, us) == StepValue(f, dt, passes, ts[|us|], us[|us| - 1])
  {
  }

  /** The values u_0 .. u_n when every Newton loop is allowed `passes`
      passes. */
  function Path(f: Rhs, t0: real, dt: real, u0: real, n: nat, passes: nat): seq<real>
  {
    Trajectory(NoStartUp(), 0, Update(f, dt, passes), t0, dt, u0, n)
  }

  /** t[i] = t[i-1] + dt and u[i] is the value the step from u[i-1] to
      the new time t[i] stores. */
  lemma {:induction false} Recurrence(f: Rhs, t0: real, dt: real, u0: real, n: nat, passes: nat, i: nat)
    requires 1 <= i <= n
    ensures var ts, vs := Times(t0, dt, n), Path(f, t0, dt, u0, n, passes);
      ts[i] == ts[i - 1] + dt && vs[i] == StepValue(f, dt, passes, ts[i], vs[i - 1])
  {
    var ts, vs := Times(t0, dt, n), Path(f, t0, dt, u0, n, passes);
    TrajectoryStep(NoStartUp(), 0, Update(f, dt, passes), t0, dt, u0, n, i - 1);
    TimesStep(t0, dt, n, i - 1);
    var tq, vq := ts[..i + 1], vs[..i];
    UpdateFormula(f, dt, passes, tq, vq);
    assert tq[i] == ts[i] && vq[i - 1] == vs[i - 1];
  }

  /** A stored value is the last Newton iterate of its step: less than
      Toll away from an iterate where the implicit Euler equation holds
      up to Toll times the slope. */
  lemma StepCloses(f: Rhs, dt: real, passes: nat, t1: real, uPrev: real)
    ensures var e := StepEnd(f, dt, passes, t1, uPrev);
      e.Settled? ==>
        && StepValue(f, dt, passes, t1, uPrev) == e.last
        && Abs(e.last - e.prev) <= Toll
        && Abs(Residual(f, dt, t1, uPrev, e.prev)) <= Toll * Abs(Slope(f, dt, t1, e.prev))
  {
    NewtonCloses(f, dt, t1, uPrev, Predictor(f, dt, t1, uPrev), passes);
  }

  function HaltOf(e: NewtonEnd): (h: Halt)
    ensures h == Ran <==> e.Settled?
  {
    match e
    case Settled(_, _) => Ran
    case Singular => ZeroSlope
    case Exhausted => OutOfPasses
  }

  /** How the Newton loop at the new time t1 from uPrev ends, as a halt. */
  function StepCheck(f: Rhs, dt: real, passes: nat): (real, real) -> Halt
  {
    (t1: real, uPrev: real) => HaltOf(StepEnd(f, dt, passes, t1, uPrev))
  }

  /** How filling a grid ends from point k on, when `check` says how the
      step to the time t_{j+1} from the value u_j ends: Ran when every such
      step (k <= j < |vs| - 1) ends so, otherwise as the first one that
      does not. */
  function FirstHalt(check: (real, real) -> Halt, ts: seq<real>, vs: seq<real>, k: nat): Halt
    requires |ts| == |vs|
    decreases |vs| - k
  {
    if k + 1 >= |vs| then Ran
    else if check(ts[k + 1], vs[k]) != Ran then check(ts[k + 1], vs[k])
    else FirstHalt(check, ts, vs, k + 1)
  }

  /** The fill runs to the end exactly when every step ends well. */
  lemma {:induction false} FirstHaltRan(check: (real, real) -> Halt, ts: seq<real>, vs: seq<real>, k: nat)
    requires |ts| == |vs|
    decreases |vs| - k
    ensures FirstHalt(check, ts, vs, k) == Ran <==> forall j :: k <= j < |vs| - 1 ==> check(ts[j + 1], vs[j]) == Ran
  {
    if k + 1 < |vs| {
      FirstHaltRan(check, ts, vs, k + 1);
    }
  }

  /** A fill whose steps before step j end well and whose step j fails
      ends as step j does. */
  lemma {:induction false} FirstHaltAt(check: (real, real) -> Halt, ts: seq<real>, vs: seq<real>, k: nat, j: nat)
    requires |ts| == |vs| && k <= j < |vs| - 1
    requires forall l :: k <= l < j ==> check(ts[l + 1], vs[l]) == Ran
    requires check(ts[j + 1], vs[j]) != Ran
    decreases j - k
    ensures FirstHalt(check, ts, vs, k) == check(ts[j + 1], vs[j])
  {
    if k < j {
      FirstHaltAt(check, ts, vs, k + 1, j);
    }
  }

  /** How filling the implicit Euler grid of n steps ends. */
  function Ends(f: Rhs, t0: real, dt: real, u0: real, n: nat, passes: nat): Halt
  {
    FirstHalt(StepCheck(f, dt, passes), Times(t0, dt, n), Path(f, t0, dt, u0, n, passes), 0)
  }

  /** A grid filled up to t_i and u_{i-1} agrees there with the grid of
      any n >= i steps. */
  lemma OnGrid(start: Step, m: nat, rule: Rule, t0: real, dt: real, u0: real, n: nat, i: nat,
               tq: seq<real>, vq: seq<real>)
    requires 1 <= i <= n
    requires tq == Times(t0, dt, i) && vq == Trajectory(start, m, rule, t0, dt, u0, i - 1)
    ensures tq[i] == Times(t0, dt, n)[i] && vq[i - 1] == Trajectory(start, m, rule, t0, dt, u0, n)[i - 1]
  {
    TimesPrefix(t0, dt, i, n);
    TrajectoryPrefix(start, m, rule, t0, dt, u0, i - 1, n);
    assert Times(t0, dt, n)[i] == Times(t0, dt, n)[..i + 1][i];
    assert Trajectory(start, m, rule, t0, dt, u0, n)[i - 1] == Trajectory(start, m, rule, t0, dt, u0, n)[..i][i - 1];
  }

  /** On f(t, u) = c + lam u with 1 - dt lam != 0 every Newton loop
      settles within two passes. */
  lemma SettlesOnLinear(c: real, lam: real, t0: real, dt: real, u0: real, n: nat, passes: nat)
    requires passes >= 2 && 1.0 - dt * lam != 0.0
    ensures Ends(Linear(c, lam), t0, dt, u0, n, passes) == Ran
  {
    var f := Linear(c, lam);
    var ts, vs := Times(t0, dt, n), Path(f, t0, dt, u0, n, passes);
    forall k | 0 <= k < n
      ensures StepCheck(f, dt, passes)(ts[k + 1], vs[k]) == Ran
    {
      NewtonOnLinear(c, lam, dt, ts[k + 1], vs[k], Predictor(f, dt, ts[k + 1], vs[k]), passes);
    }
    FirstHaltRan(StepCheck(f, dt, passes), ts, vs, 0);
  }

  /** ... on the root of the implicit Euler equation
      (1 - dt lam) v = uPrev + dt c. */
  lemma StepValueOnLinear(c: real, lam: real, dt: real, passes: nat, t1: real, uPrev: real)
    requires passes >= 2 && 1.0 - dt * lam != 0.0
    ensures (1.0 - dt * lam) * StepValue(Linear(c, lam), dt, passes, t1, uPrev) == uPrev + dt * c
  {
    var f := Linear(c, lam);
    NewtonOnLinear(c, lam, dt, t1, uPrev, Predictor(f, dt, t1, uPrev), passes);
  }

  /** Each value of the grid solves the implicit Euler equation
      exactly. */
  lemma StepOnLinear(c: real, lam: real, t0: real, dt: real, u0: real, n: nat, passes: nat, i: nat)
    requires passes >= 2 && 1.0 - dt * lam != 0.0 && 1 <= i <= n
    ensures var vs := Path(Linear(c, lam), t0, dt, u0, n, passes);
      (1.0 - dt * lam) * vs[i] == vs[i - 1] + dt * c
  {
    var f := Linear(c, lam);
    var ts, vs := Times(t0, dt, n), Path(f, t0, dt, u0, n, passes);
    Recurrence(f, t0, dt, u0, n, passes, i);
    StepValueOnLinear(c, lam, dt, passes, ts[i], vs[i - 1]);
  }

  /** So the whole grid solves the implicit Euler recurrence; for c = 0
      and lam < 0, dt > 0 the values decay by the factor 1 / (1 - dt lam)
      per step. */
  lemma ExactOnLinear(c: real, lam: real, t0: real, dt: real, u0: real, n: nat, passes: nat)
    requires passes >= 2 && 1.0 - dt * lam != 0.0
    ensures Ends(Linear(c, lam), t0, dt, u0, n, passes) == Ran
    ensures forall i :: 1 <= i <= n ==>
      (1.0 - dt * lam) * Path(Linear(c, lam), t0, dt, u0, n, passes)[i] ==
      Path(Linear(c, lam), t0, dt, u0, n, passes)[i - 1] + dt * c
  {
    SettlesOnLinear(c, lam, t0, dt, u0, n, passes);
    forall i | 1 <= i <= n
      ensures (1.0 - dt * lam) * Path(Linear(c, lam), t0, dt, u0, n, passes)[i] ==
        Path(Linear(c, lam), t0, dt, u0, n, passes)[i - 1] + dt * c
    {
      StepOnLinear(c, lam, t0, dt, u0, n, passes, i);
    }
  }

  /** The Newton loop of one step, with the solver's fields uOld, uNew
      and err as locals: err starts at 1.0, so at least one correction
      runs; the loop runs while err > Toll. The pass budget only exists
      in the model. */
  method NewtonLoop(f: Rhs, dt: real, t1: real, uPrev: real, uPred: real, passes: nat) returns (e: NewtonEnd)
    ensures e == Newton(f, dt, t1, uPrev, uPred, passes)
  {
    var uOld, uNew := uPred, uPred;
    var before := uPred;
    var err := 1.0;
    var j := 0;
    while err > Toll && j < passes
      invariant j <= passes
      invariant err > Toll ==> Newton(f, dt, t1, uPrev, uPred, passes) == Newton(f, dt, t1, uPrev, uOld, passes - j)
      invariant err <= Toll ==> Newton(f, dt, t1, uPrev, uPred, passes) == Settled(before, uNew)
      invariant j == 0 ==> err == 1.0
      decreases passes - j
    {
      var d := 1.0 - dt * ForwardDifference(f, t1, uOld);
      if d == 0.0 {
        return Singular;
      }
      uNew := uOld - (uOld - (uPrev + dt * f(t1, uOld))) / d;
      err := Abs(uNew - uOld);
      before := uOld;
      uOld := uNew;
      j := j + 1;
    }
    if err > Toll {
      return Exhausted;
    }
    e := Settled(before, uNew);
  }

  /** Point i of the loop: t.at(i) = t.at(i-1) + dt(), the predictor,
      the Newton loop, then u.at(i) = uNew; nothing is stored in u when
      the loop does not settle. */
  method Advance(s: OdeSolver, f: Rhs, passes: nat, i: nat) returns (e: NewtonEnd)
    requires s.Valid() && 1 <= i <= s.Ns
    requires Filled(s, NoStartUp(), 0, Update(f, s.stepSize, passes), i - 1)
    modifies s.t, s.u
    ensures e == StepEnd(f, s.stepSize, passes, s.t[i], s.u[i - 1])
    ensures s.t[..i + 1] == Times(s.initialTime, s.stepSize, i)
    ensures s.u[..i] == old(s.u[..i])
    ensures e.Settled? ==> Filled(s, NoStartUp(), 0, Update(f, s.stepSize, passes), i)
  {
    var dt := s.stepSize;
    var tp, us := s.t[..i], s.u[..i];
    s.t[i] := s.t[i - 1] + dt;
    var ts := s.t[..i + 1];
    assert ts == tp + [s.t[i]];
    assert ts == Times(s.initialTime, dt, i);
    var uOld := Predictor(f, dt, s.t[i], s.u[i - 1]);
    e := NewtonLoop(f, dt, s.t[i], s.u[i - 1], uOld, passes);
    if !e.Settled? {
      return;
    }
    assert us == Trajectory(NoStartUp(), 0, Update(f, dt, passes), s.initialTime, dt, s.initialValue, i - 1);
    UpdateFormula(f, dt, passes, ts, us);
    s.u[i] := e.last;
    assert s.u[..i + 1] == us + [s.u[i]];
  }

  /** The body both overloads share: t.at(0) and u.at(0) (which throw on
      an empty grid), then Advance for i = 1 .. Ns. The fill stops at the
      first Newton loop that does not settle. */
  method Fill(s: OdeSolver, passes: nat) returns (r: Outcome)
    requires s.Valid()
    modifies s.t, s.u
    ensures s.Ns < 0 ==> r == OutOfRange && unchanged(s.t) && unchanged(s.u)
    ensures s.Ns >= 0 ==> r == OutcomeOf(Ends(s.rhs.numericalFunction, s.initialTime, s.stepSize, s.initialValue, s.Ns, passes))
    ensures r == Completed ==>
      && s.t[..] == Times(s.initialTime, s.stepSize, s.Ns)
      && s.u[..] == Path(s.rhs.numericalFunction, s.initialTime, s.stepSize, s.initialValue, s.Ns, passes)
  {
    var ok := s.Seed();
    if !ok {
      return OutOfRange;
    }
    var f := s.rhs.numericalFunction;
    ghost var rule, check := Update(f, s.stepSize, passes), StepCheck(f, s.stepSize, passes);
    ghost var ts, vs := Times(s.initialTime, s.stepSize, s.Ns), Path(f, s.initialTime, s.stepSize, s.initialValue, s.Ns, passes);
    var i := 1;
    while i <= s.Ns
      invariant 1 <= i <= s.Ns + 1
      invariant Filled(s, NoStartUp(), 0, rule, i - 1)
      invariant FirstHalt(check, ts, vs, 0) == FirstHalt(check, ts, vs, i - 1)
    {
      ghost var us := s.u[..i];
      var e := Advance(s, f, passes, i);
      OnGrid(NoStartUp(), 0, rule, s.initialTime, s.stepSize, s.initialValue, s.Ns, i, s.t[..i + 1], us);
      assert check(ts[i], vs[i - 1]) == HaltOf(e);
      if !e.Settled? {
        return OutcomeOf(HaltOf(e));
      }
      i := i + 1;
    }
    assert s.t[..] == s.t[..s.Ns + 1];
    assert s.u[..] == s.u[..s.Ns + 1];
    r := Completed;
  }

  class BackwardEulerSolver {
    const base: OdeSolver

    ghost predicate Valid()
      reads this, base
    {
      base.Valid()
    }

    constructor (that: RhsOdeProblem)
      requires that.dt != 0.0 && StepCount(that) >= -1
      ensures fresh(base) && fresh(base.rhs) && base.rhs.SameAs(that)
      ensures base.stepSize == that.dt && base.initialTime == that.t0
      ensures base.finalTime == that.tf && base.initialValue == that.u0
      ensures Valid() && base.Ns == StepCount(that) && fresh(base.t) && fresh(base.u) && fresh(base.uc)
    {
      base := new OdeSolver(that);
    }

    /** How filling the grid ends when every Newton loop may take
        `passes` passes. */
    function Ending(passes: nat): Halt
      reads this, base, base.rhs
      requires base.Ns >= 0
    {
      Ends(base.rhs.numericalFunction, base.initialTime, base.stepSize, base.initialValue, base.Ns, passes)
    }

    /** The grid holds the times and the implicit Euler values. */
    ghost predicate Solved(passes: nat)
      reads this, base, base.rhs, base.t, base.u
    {
      && base.Ns >= 0
      && base.t[..] == Times(base.initialTime, base.stepSize, base.Ns)
      && base.u[..] == Path(base.rhs.numericalFunction, base.initialTime, base.stepSize, base.initialValue, base.Ns, passes)
    }

    /** solve(filename): throws before touching the grid when the file
        does not open. A Newton loop that does not settle would run
        forever; the model gives up after `passes` passes. */
    method SolveToFile(fileOpens: bool, passes: nat) returns (r: Outcome)
      requires Valid()
      modifies base.t, base.u
      ensures r == if !fileOpens then FileErrorThrown else if base.Ns < 0 then OutOfRange else OutcomeOf(Ending(passes))
      ensures r == FileErrorThrown ==> unchanged(base.t) && unchanged(base.u)
      ensures r == Completed ==> Solved(passes)
    {
      if !fileOpens {
        return FileErrorThrown;
      }
      r := Fill(base, passes);
    }

    /** solve(): the same grid; an out-of-range access terminates. */
    method Solve(passes: nat) returns (r: Outcome)
      requires Valid()
      modifies base.t, base.u
      ensures r == if base.Ns < 0 then Terminated else OutcomeOf(Ending(passes))
      ensures r == Completed ==> Solved(passes)
    {
      r := Fill(base, passes);
      if r == OutOfRange {
        r := Terminated;
      }
    }
  }
}
