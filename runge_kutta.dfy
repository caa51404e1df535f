/** The base of the Runge-Kutta family: an OdeSolver together with its
    own step count Nstep and its own vector uc, which hides the uc of
    the OdeSolver in every member of the family. */
module RungeKuttaBase {
  import opened Problem
  import opened Solver

  class RungeKutta {
    const base: OdeSolver
    /** An unsigned step count. */
    var Nstep: nat
    var uc: array<real>

    ghost predicate Valid()
      reads this, base
    {
      && base.Valid()
      && Nstep == base.Ns
      && uc.Length == Nstep + 1
      && uc != base.t && uc != base.u && uc != base.uc
    }

    /** Nstep = (tf - t0) / dt converted to an unsigned integer, which is
        defined only when the quotient exceeds -1; then uc is sized. */
    constructor (that: RhsOdeProblem)
      requires that.dt != 0.0 && StepCount(that) >= 0
      ensures fresh(base) && fresh(base.rhs) && base.rhs.SameAs(that)
      ensures base.stepSize == that.dt && base.initialTime == that.t0
      ensures base.finalTime == that.tf && base.initialValue == that.u0
      ensures Valid() && Nstep == StepCount(that)
      ensures fresh(base.t) && fresh(base.u) && fresh(base.uc) && fresh(uc)
      ensures forall k :: 0 <= k < uc.Length ==> uc[k] == 0.0
    {
      base := new OdeSolver(that);
      Nstep := Trunc((that.tf - that.t0) / that.dt);
      uc := new real[0];
      new;
      ReSize();
    }

    /** uc.resize(Nstep + 1). */
    method ReSize()
      modifies this`uc
      ensures uc.Length == Nstep + 1
      ensures forall k :: 0 <= k < uc.Length ==> uc[k] == if k < old(uc.Length) then old(uc[k]) else 0.0
      ensures uc == old(uc) || fresh(uc)
    {
      uc := Resize(uc, Nstep + 1);
    }
  }
}
