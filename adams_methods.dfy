/** The predictor-corrector machinery of the Adams-Moulton solvers: an
    explicit Adams-Bashforth predictor, then an Adams-Moulton corrector
    iterated until two successive corrected values are closer than
    PcToll. */
module AdamsMethods {
  import opened Problem
  import opened Solver
  import opened Grid
  import opened Explicit

  /** The tolerance of the corrector loop. */
  const PcToll: real := 0.0000000001

  /** An implicit (corrector) formula: the value at t_{i+1} from the
      times t_0 .. t_{i+1}, the values u_0 .. u_i and a slope at
      t_{i+1}. */
  type Implicit = (seq<real>, seq<real>, real) -> real

  /** How the corrector loop ends: with the last two corrected values,
      or, in the model only, when its passes are used up. */
  datatype Iteration = Converged(prev: real, last: real) | Exhausted

  /** The corrector as a map on values: v goes to the corrector formula
      fed with the slope f(t_{i+1}, v). */
  function CorrectorMap(f: Rhs, corr: Implicit, ts: seq<real>, us: seq<real>): real -> real
  {
    v => corr(ts, us, f(At(ts, |us|), v))
  }

  /** The corrector loop from x, allowing `passes` passes: each pass
      applies the map twice, a = g(x), b = g(a), and stops once
      |b - a| < PcToll, continuing from b otherwise. */
  function Corrected(g: real -> real, x: real, passes: nat): Iteration
    decreases passes
  {
    if passes == 0 then Exhausted
    else
      var a := g(x);
      var b := g(a);
      if Abs(b - a) < PcToll then Converged(a, b) else Corrected(g, b, passes - 1)
  }

  /** Whatever ends the loop ends it with a value one application of the
      map away from a value within PcToll of it. */
  lemma {:induction false} CorrectedCloses(g: real -> real, x: real, passes: nat)
    decreases passes
    ensures var r := Corrected(g, x, passes);
      r.Converged? ==> r.last == g(r.prev) && Abs(r.last - r.prev) < PcToll
  {
    if passes > 0 && Abs(g(g(x)) - g(x)) >= PcToll {
      CorrectedCloses(g, g(g(x)), passes - 1);
    }
  }

  /** A map that does not depend on its argument (the slope does not
      depend on u) is done after one pass, with its constant value. */
  lemma ConstantMapConverges(g: real -> real, c: real, x: real, passes: nat)
    requires passes >= 1
    requires forall v :: g(v) == c
    ensures Corrected(g, x, passes) == Converged(c, c)
  {
  }

  /** The corrector loop: fCorrOld starts at the slope of the predicted
      value; each pass computes uCorrOld from fCorrOld, the slope there,
      uCorr from that slope and the slope at uCorr, and the error
      |uCorr - uCorrOld|; the loop runs while the error is at least
      PcToll. The pass budget only exists in the model. */
  method Correct(f: Rhs, corr: Implicit, ts: seq<real>, us: seq<real>, uPred: real, passes: nat) returns (r: Iteration)
    ensures r == Corrected(CorrectorMap(f, corr, ts, us), uPred, passes)
  {
    var g := CorrectorMap(f, corr, ts, us);
    var t1 := At(ts, |us|);
    var fCorrOld := f(t1, uPred);
    var error := 1.0;
    var uCorrOld, uCorr := uPred, uPred;
    ghost var x := uPred;
    var iter := 0;
    while error >= PcToll && iter < passes
      invariant iter <= passes
      invariant fCorrOld == f(t1, x)
      invariant iter == 0 ==> error == 1.0
      invariant error >= PcToll ==> Corrected(g, uPred, passes) == Corrected(g, x, passes - iter)
      invariant error < PcToll ==> Corrected(g, uPred, passes) == Converged(uCorrOld, uCorr)
      decreases passes - iter
    {
      uCorrOld := corr(ts, us, fCorrOld);
      fCorrOld := f(t1, uCorrOld);
      uCorr := corr(ts, us, fCorrOld);
      var fCorr := f(t1, uCorr);
      error := Abs(uCorr - uCorrOld);
      fCorrOld := fCorr;
      x := uCorr;
      iter := iter + 1;
    }
    if error >= PcToll {
      return Exhausted;
    }
    r := Converged(uCorrOld, uCorr);
  }

  /** The predictor-corrector step as a rule: the corrected value when
      the loop converges from the predicted one; the predicted value
      otherwise (a value the solver never stores). */
  function PCRule(f: Rhs, pred: Rule, corr: Implicit, passes: nat): Rule
  {
    (ts: seq<real>, us: seq<real>) =>
      match Corrected(CorrectorMap(f, corr, ts, us), pred(ts, us), passes)
      case Converged(_, b) => b
      case Exhausted => pred(ts, us)
  }

  /** A value the rule stores satisfies the corrector equation up to
      PcToll: it is the corrector formula fed with the slope at a value
      closer than PcToll to it. */
  lemma PCRuleCloses(f: Rhs, pred: Rule, corr: Implicit, passes: nat, ts: seq<real>, us: seq<real>)
    ensures var r := Corrected(CorrectorMap(f, corr, ts, us), pred(ts, us), passes);
      r.Converged? ==>
        var v := PCRule(f, pred, corr, passes)(ts, us);
        v == corr(ts, us, f(At(ts, |us|), r.prev)) && Abs(v - r.prev) < PcToll
  {
    CorrectedCloses(CorrectorMap(f, corr, ts, us), pred(ts, us), passes);
  }

  /** When the slope does not depend on u, as for f(t, u) = a + b t,
      the corrector loop converges at once, whatever the predictor, to
      the corrector formula fed with the slope at t_{i+1}. */
  lemma PCRuleOnAffine(a: real, b: real, pred: Rule, corr: Implicit, passes: nat, ts: seq<real>, us: seq<real>)
    requires passes >= 1 && |us| < |ts|
    ensures Corrected(CorrectorMap(Affine(a, b), corr, ts, us), pred(ts, us), passes).Converged?
    ensures PCRule(Affine(a, b), pred, corr, passes)(ts, us) == corr(ts, us, a + b * ts[|us|])
  {
    var g := CorrectorMap(Affine(a, b), corr, ts, us);
    var c := corr(ts, us, a + b * ts[|us|]);
    forall v
      ensures g(v) == c
    {
      assert At(ts, |us|) == ts[|us|];
    }
    ConstantMapConverges(g, c, pred(ts, us), passes);
  }

  /** The corrector loop for point k >= 1 of the trajectory converges
      within `passes` passes. */
  ghost predicate Converges(start: Step, m: nat, f: Rhs, pred: Rule, corr: Implicit, passes: nat,
                            t0: real, dt: real, u0: real, k: nat)
    requires k >= 1
  {
    var ts, us := Times(t0, dt, k), Trajectory(start, m, PCRule(f, pred, corr, passes), t0, dt, u0, k - 1);
    Corrected(CorrectorMap(f, corr, ts, us), pred(ts, us), passes).Converged?
  }

  /** Every corrector loop from point m + 1 to point n converges. */
  ghost predicate AllConverge(start: Step, m: nat, f: Rhs, pred: Rule, corr: Implicit, passes: nat,
                              t0: real, dt: real, u0: real, n: nat)
  {
    forall k :: m < k <= n ==> Converges(start, m, f, pred, corr, passes, t0, dt, u0, k)
  }

  /** With f(t, u) = a + b t every corrector loop converges. */
  lemma AffineConverges(start: Step, m: nat, a: real, b: real, pred: Rule, corr: Implicit, passes: nat,
                        t0: real, dt: real, u0: real, n: nat)
    requires passes >= 1
    ensures AllConverge(start, m, Affine(a, b), pred, corr, passes, t0, dt, u0, n)
  {
    forall k | m < k <= n
      ensures Converges(start, m, Affine(a, b), pred, corr, passes, t0, dt, u0, k)
    {
      var rule := PCRule(Affine(a, b), pred, corr, passes);
      PCRuleOnAffine(a, b, pred, corr, passes, Times(t0, dt, k), Trajectory(start, m, rule, t0, dt, u0, k - 1));
    }
  }

  /** Point i of the main loop: t.at(i) = t.at(i-1) + dt(), the
      predicted value from the points before, the corrector loop from
      it, then u.at(i) = uCorr; nothing is stored in u when the loop
      uses up its passes. */
  method PCStep(s: OdeSolver, start: Step, m: nat, f: Rhs, pred: Rule, corr: Implicit, passes: nat, i: nat)
    returns (ok: bool)
    requires s.Valid() && m < i <= s.Ns
    requires Filled(s, start, m, PCRule(f, pred, corr, passes), i - 1)
    modifies s.t, s.u
    ensures ok == Converges(start, m, f, pred, corr, passes, s.initialTime, s.stepSize, s.initialValue, i)
    ensures ok ==> Filled(s, start, m, PCRule(f, pred, corr, passes), i)
  {
    var tp, us := s.t[..i], s.u[..i];
    s.t[i] := s.t[i - 1] + s.stepSize;
    var ts := s.t[..i + 1];
    assert ts == tp + [s.t[i]];
    assert ts == Times(s.initialTime, s.stepSize, i);
    assert us == Trajectory(start, m, PCRule(f, pred, corr, passes), s.initialTime, s.stepSize, s.initialValue, i - 1);
    var uPred := pred(ts, us);
    var r := Correct(f, corr, ts, us, uPred, passes);
    if r.Exhausted? {
      return false;
    }
    s.u[i] := r.last;
    assert s.u[..i + 1] == us + [s.u[i]];
    ok := true;
  }

  /** The main loop of the predictor-corrector solvers, for i = m+1 ..
      Ns; it stops at the first corrector loop that uses up its
      passes. */
  method PCContinue(s: OdeSolver, start: Step, m: nat, f: Rhs, pred: Rule, corr: Implicit, passes: nat)
    returns (h: Halt)
    requires s.Valid() && m <= s.Ns
    requires Filled(s, start, m, PCRule(f, pred, corr, passes), m)
    modifies s.t, s.u
    ensures h == Ran || h == OutOfPasses
    ensures h == Ran <==> AllConverge(start, m, f, pred, corr, passes, s.initialTime, s.stepSize, s.initialValue, s.Ns)
    ensures h == Ran ==> s.t[..] == Times(s.initialTime, s.stepSize, s.Ns)
    ensures h == Ran ==> s.u[..] == Trajectory(start, m, PCRule(f, pred, corr, passes), s.initialTime, s.stepSize, s.initialValue, s.Ns)
  {
    var i := m + 1;
    while i <= s.Ns
      invariant m + 1 <= i <= s.Ns + 1
      invariant Filled(s, start, m, PCRule(f, pred, corr, passes), i - 1)
      invariant forall k :: m < k < i ==> Converges(start, m, f, pred, corr, passes, s.initialTime, s.stepSize, s.initialValue, k)
    {
      var ok := PCStep(s, start, m, f, pred, corr, passes, i);
      if !ok {
        assert m < i <= s.Ns && !Converges(start, m, f, pred, corr, passes, s.initialTime, s.stepSize, s.initialValue, i);
        return OutOfPasses;
      }
      i := i + 1;
    }
    assert s.t[..] == s.t[..s.Ns + 1];
    assert s.u[..] == s.u[..s.Ns + 1];
    h := Ran;
  }
}
