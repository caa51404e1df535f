/** The state every solver shares: a private copy of the problem, the
    step size, start time, final time and initial value read from it,
    the number of steps Ns and the grid vectors t, u and uc of Ns + 1
    entries each. */
module Solver {
  import opened Problem
  import opened Steps

  /** The convergence tolerance of the implicit (Newton) iteration. */
  const Toll: real := 0.000000000001

  /** How a call of solve ends. */
  datatype Outcome =
    | Completed
      /** The output file did not open and solve threw. */
    | FileErrorThrown
      /** The output file did not open; solve reported it and returned. */
    | FileErrorReported
      /** A `.at()` access past the end of the grid threw. */
    | OutOfRange
      /** The same access inside a `noexcept` solve: std::terminate. */
    | Terminated
      /** An inner iteration used up the passes the model allows it. */
    | NotConverged
      /** A Newton step met a zero denominator. */
    | SingularSlope

  /** How the computation of the value sequence of an iterative scheme
      stopped. */
  datatype Halt = Ran | OutOfPasses | ZeroSlope

  /** The values an iterative scheme produced and why it stopped. */
  datatype Trace = Trace(values: seq<real>, halt: Halt)

  function OutcomeOf(h: Halt): (r: Outcome)
    ensures r == Completed <==> h == Ran
  {
    match h
    case Ran => Completed
    case OutOfPasses => NotConverged
    case ZeroSlope => SingularSlope
  }

  /** The C++ conversion of a real to `int`: truncation toward zero. */
  function Trunc(q: real): (n: int)
    ensures q >= 0.0 ==> n as real <= q < (n + 1) as real
    ensures q < 0.0 ==> (n - 1) as real < q <= n as real
  {
    if q >= 0.0 then q.Floor else -((-q).Floor)
  }

  /** The number of steps of a problem: (tf - t0) / dt truncated. */
  function StepCount(p: RhsOdeProblem): int
    reads p
    requires p.dt != 0.0
  {
    Trunc((p.tf - p.t0) / p.dt)
  }

  /** std::vector::resize: the first entries are kept, new ones are 0. */
  method Resize(a: array<real>, n: nat) returns (b: array<real>)
    ensures b.Length == n
    ensures forall k :: 0 <= k < n ==> b[k] == if k < a.Length then old(a[k]) else 0.0
    ensures b == a || fresh(b)
  {
    if a.Length == n {
      return a;
    }
    var s := a[..];
    b := new real[n](k requires 0 <= k => if k < |s| then s[k] else 0.0);
  }

  class OdeSolver {
    /** The solver's own copy of the problem (a by-value member). */
    const rhs: RhsOdeProblem
    var stepSize: real
    var initialTime: real
    var initialValue: real
    var finalTime: real
    /** Fixed when the solver is built, from the problem it was built with. */
    const Ns: int
    var t: array<real>
    var u: array<real>
    var uc: array<real>

    /** The grid vectors have Ns + 1 entries and are distinct objects. */
    ghost predicate Valid()
      reads this
    {
      && Ns >= -1
      && t.Length == Ns + 1 && u.Length == Ns + 1 && uc.Length == Ns + 1
      && t != u && t != uc && u != uc
    }

    /** The number of grid entries. */
    function Len(): (n: nat)
      reads this
      requires Valid()
      ensures n == t.Length == u.Length
    {
      Ns + 1
    }

    /** The solver copies the problem, reads its parameters through
        the setters and sizes the grid. A negative size would throw
        inside a noexcept constructor, so the problem must span at least
        (-1) steps; a zero step size makes Ns undefined. */
    constructor (that: RhsOdeProblem)
      requires that.dt != 0.0 && StepCount(that) >= -1
      ensures fresh(rhs) && rhs.SameAs(that)
      ensures stepSize == that.dt && initialTime == that.t0
      ensures finalTime == that.tf && initialValue == that.u0
      ensures Ns == StepCount(that)
      ensures Valid() && fresh(t) && fresh(u) && fresh(uc)
      ensures forall k :: 0 <= k < Len() ==> t[k] == 0.0 && u[k] == 0.0 && uc[k] == 0.0
    {
      rhs := new RhsOdeProblem.Copy(that);
      Ns := StepCount(that);
      t := new real[0];
      u := new real[0];
      uc := new real[0];
      new;
      SetStepSize();
      SetInitialTime();
      SetFinalTime();
      SetInitialValue();
      SetSize();
    }

    method SetStepSize()
      modifies this`stepSize
      ensures stepSize == rhs.dt
    {
      stepSize := rhs.dt;
    }

    method SetInitialTime()
      modifies this`initialTime
      ensures initialTime == rhs.t0
    {
      initialTime := rhs.t0;
    }

    method SetFinalTime()
      modifies this`finalTime
      ensures finalTime == rhs.tf
    {
      finalTime := rhs.tf;
    }

    method SetInitialValue()
      modifies this`initialValue
      ensures initialValue == rhs.u0
    {
      initialValue := rhs.u0;
    }

    /** Resizes the three grid vectors to Ns + 1 entries. */
    method SetSize()
      requires Ns >= -1
      modifies this`t, this`u, this`uc
      ensures t.Length == Ns + 1 && u.Length == Ns + 1 && uc.Length == Ns + 1
      ensures forall k :: 0 <= k < Ns + 1 ==>
        && t[k] == (if k < old(t.Length) then old(t[k]) else 0.0)
        && u[k] == (if k < old(u.Length) then old(u[k]) else 0.0)
        && uc[k] == (if k < old(uc.Length) then old(uc[k]) else 0.0)
      ensures (t == old(t) || fresh(t)) && (u == old(u) || fresh(u)) && (uc == old(uc) || fresh(uc))
      ensures old(t != u && t != uc && u != uc) ==> t != u && t != uc && u != uc
    {
      t := Resize(t, Ns + 1);
      u := Resize(u, Ns + 1);
      uc := Resize(uc, Ns + 1);
    }

    /** Replaces the problem the solver holds by a copy of `that`. The
        step size, times and initial value the solver reads stay as they
        were until their setters run again, and so does Ns. */
    method SetRhs(that: RhsOdeProblem)
      modifies rhs
      ensures rhs.SameAs(that)
    {
      rhs.Assign(that);
    }

    /** t.at(0) = t0(); u.at(0) = u0(): throws when the grid is empty. */
    method Seed() returns (ok: bool)
      requires Valid()
      modifies t, u
      ensures ok == (Len() > 0)
      ensures ok ==> t[..1] == [initialTime] && u[..1] == [initialValue]
      ensures ok ==> t[1..] == old(t[1..]) && u[1..] == old(u[1..])
      ensures !ok ==> unchanged(t) && unchanged(u)
    {
      if Len() == 0 {
        return false;
      }
      t[0] := initialTime;
      u[0] := initialValue;
      ok := true;
    }
  }
}
