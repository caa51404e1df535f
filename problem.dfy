/** The description of one initial-value problem du/dt = f(t, u): the
    right-hand side, an optional analytic solution and the domain
    (start time, final time, step size, initial value). */
module Problem {

  /** The type of a right-hand side or of an analytic solution. */
  type Rhs = (real, real) -> real

  /** The step of the forward difference used for the slope in u. */
  const Eps: real := 0.000000000001

  function Abs(x: real): real { if x < 0.0 then -x else x }

  /** The least natural n with q <= n: the number of passes of the loop
      `for (size_t i = 0; i < q; i++)` whose bound q is a real. */
  function ExactSteps(q: real): (n: nat)
    ensures q <= n as real
    ensures n == 0 || ((n - 1) as real) < q
  {
    if q <= 0.0 then 0 else -((-q).Floor)
  }

  /** The forward difference of f in its SECOND argument:
      (f(t, u + eps) - f(t, u)) / eps. */
  function ForwardDifference(f: Rhs, t: real, u: real): (r: real)
    ensures r * Eps == f(t, u + Eps) - f(t, u)
  {
    (f(t, u + Eps) - f(t, u)) / Eps
  }

  /** The records the reference trajectory holds after n passes of its
      loop: it starts at (t0, u0) and each pass advances the time by dt
      and feeds the new time and the previous value to the analytic
      function. */
  function ReferenceRecords(g: Rhs, t0: real, dt: real, u0: real, n: nat): (r: seq<(real, real)>)
    ensures |r| == n + 1 && r[0] == (t0, u0)
  {
    if n == 0 then [(t0, u0)]
    else
      var p := ReferenceRecords(g, t0, dt, u0, n - 1);
      var time := p[n - 1].0 + dt;
      p + [(time, g(time, p[n - 1].1))]
  }

  /** The k-th reference record sits on the time grid t0 + k dt. */
  lemma {:induction false} ReferenceRecordsOnGrid(g: Rhs, t0: real, dt: real, u0: real, n: nat, k: nat)
    requires k <= n
    ensures ReferenceRecords(g, t0, dt, u0, n)[k].0 == t0 + (k as real) * dt
  {
    if k < n {
      ReferenceRecordsOnGrid(g, t0, dt, u0, n - 1, k);
    } else if k > 0 {
      ReferenceRecordsOnGrid(g, t0, dt, u0, n - 1, k - 1);
    }
  }

  /** What solveExact does: the records it writes, or the process exit
      it takes when the output file does not open (or, with no analytic
      function installed, when the first call of it aborts). */
  datatype ExactRun = Written(records: seq<(real, real)>) | Exited

  class RhsOdeProblem {
    var numericalFunction: Rhs
    /** None models an empty std::function. */
    var analiticalFunction: Option<Rhs>
    var t0: real
    var tf: real
    var dt: real
    var u0: real
    var filename: string
    /** How many times solveExact has run on this object. */
    ghost var exactRuns: nat
    /** What the last run of solveExact did; None before the first. */
    ghost var lastRun: Option<ExactRun>

    /** The same problem data as `that` (what a copy of it holds). */
    ghost predicate SameAs(that: RhsOdeProblem)
      reads this, that
    {
      && numericalFunction == that.numericalFunction
      && analiticalFunction == that.analiticalFunction
      && t0 == that.t0 && tf == that.tf && dt == that.dt && u0 == that.u0
      && filename == that.filename
    }

    /** The constructor with an analytic solution: it stores its
        arguments and then runs solveExact once. */
    constructor WithExact(numfun: Rhs, exactfun: Rhs, Ti: real, Tf: real, Dt: real, U0: real,
                          fname: string, sinkOpens: bool)
      requires Dt != 0.0
      ensures numericalFunction == numfun && analiticalFunction == Some(exactfun)
      ensures t0 == Ti && tf == Tf && dt == Dt && u0 == U0 && filename == fname
      ensures exactRuns == 1
      ensures lastRun == Some(if !sinkOpens then Exited
                              else Written(ReferenceRecords(exactfun, Ti, Dt, U0, ExactSteps((Tf - Ti) / Dt))))
    {
      numericalFunction := numfun;
      analiticalFunction := Some(exactfun);
      t0, tf, dt, u0 := Ti, Tf, Dt, U0;
      filename := fname;
      exactRuns := 0;
      lastRun := None;
      new;
      var _ := SolveExact(sinkOpens);
    }

    /** The constructor without an analytic solution: it stores its
        arguments and does nothing else. */
    constructor (numfun: Rhs, Ti: real, Tf: real, Dt: real, U0: real)
      ensures numericalFunction == numfun && analiticalFunction == None
      ensures t0 == Ti && tf == Tf && dt == Dt && u0 == U0 && filename == ""
      ensures exactRuns == 0 && lastRun == None
    {
      numericalFunction := numfun;
      analiticalFunction := None;
      t0, tf, dt, u0 := Ti, Tf, Dt, U0;
      filename := "";
      exactRuns := 0;
      lastRun := None;
    }

    /** The defaulted copy constructor. */
    constructor Copy(that: RhsOdeProblem)
      ensures SameAs(that) && exactRuns == 0 && lastRun == None
    {
      numericalFunction := that.numericalFunction;
      analiticalFunction := that.analiticalFunction;
      t0, tf, dt, u0 := that.t0, that.tf, that.dt, that.u0;
      filename := that.filename;
      exactRuns := 0;
      lastRun := None;
    }

    /** The defaulted copy assignment. */
    method Assign(that: RhsOdeProblem)
      modifies this
      ensures SameAs(that)
      ensures numericalFunction == old(that.numericalFunction)
      ensures t0 == old(that.t0) && tf == old(that.tf) && dt == old(that.dt) && u0 == old(that.u0)
      ensures exactRuns == old(exactRuns) && lastRun == old(lastRun)
    {
      numericalFunction := that.numericalFunction;
      analiticalFunction := that.analiticalFunction;
      t0, tf, dt, u0 := that.t0, that.tf, that.dt, that.u0;
      filename := that.filename;
    }

    /** dfdt(t, u): despite its name, the forward difference in u. */
    function Dfdt(t: real, u: real): (r: real)
      reads this
      ensures r * Eps == numericalFunction(t, u + Eps) - numericalFunction(t, u)
    {
      ForwardDifference(numericalFunction, t, u)
    }

    method SetRhs(numfun: Rhs)
      modifies this`numericalFunction
      ensures numericalFunction == numfun
    {
      numericalFunction := numfun;
    }

    method SetExact(exactfun: Rhs)
      modifies this`analiticalFunction
      ensures analiticalFunction == Some(exactfun)
    {
      analiticalFunction := Some(exactfun);
    }

    /** solveExact: the reference trajectory over ExactSteps((tf-t0)/dt)
        passes; the records are what the output file receives. */
    method SolveExact(sinkOpens: bool) returns (r: ExactRun)
      requires dt != 0.0
      modifies this`exactRuns, this`lastRun
      ensures exactRuns == old(exactRuns) + 1
      ensures lastRun == Some(r)
      ensures var n := ExactSteps((tf - t0) / dt);
        r == if !sinkOpens then Exited
             else if analiticalFunction.None? then (if n == 0 then Written([(t0, u0)]) else Exited)
             else Written(ReferenceRecords(analiticalFunction.value, t0, dt, u0, n))
    {
      exactRuns := exactRuns + 1;
      var ns := (tf - t0) / dt;
      if !sinkOpens {
        lastRun := Some(Exited);
        return Exited;
      }
      var n := ExactSteps(ns);
      if analiticalFunction.None? {
        r := if n > 0 then Exited else Written([(t0, u0)]);
        lastRun := Some(r);
        return;
      }
      var g := analiticalFunction.value;
      var time, yt := t0, u0;
      var records := [(time, yt)];
      var i: nat := 0;
      while (i as real) < ns
        invariant i <= n
        invariant records == ReferenceRecords(g, t0, dt, u0, i)
        invariant (time, yt) == records[i]
        decreases n - i
      {
        time := time + dt;
        yt := g(time, yt);
        records := records + [(time, yt)];
        i := i + 1;
      }
      r := Written(records);
      lastRun := Some(r);
    }
  }

  datatype Option<+T> = None | Some(value: T)
}
