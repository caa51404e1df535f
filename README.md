# ODE solvers of drudox/ODE, modelled in Dafny

The library solves scalar initial-value problems du/dt = f(t, u), u(t0) = u0,
on the grid t0, t0 + dt, ..., t0 + Ns dt with Ns = (tf - t0)/dt truncated to an
`int`. A problem object (`rhsOdeProblem`) holds f, an optional analytic
solution and the domain. Every solver copies it into an `OdeSolver` base
holding the grid vectors t, u and uc (Ns + 1 entries each). The two `solve`
overloads of a solver then fill the grid in place, point by point:

- explicit one-step solvers: forward Euler, Modified Euler (midpoint), Heun,
  classical Runge-Kutta;
- the Crank-Nicolson predictor-corrector pair;
- the implicit (backward) Euler solver with its Newton loop;
- leap-frog;
- the Adams-Bashforth solvers of order 2 to 5;
- the Adams-Moulton predictor-corrector solvers of order 3 to 5.

The model keeps that structure:

- `Problem.RhsOdeProblem` and `Solver.OdeSolver` are classes with the
  source's fields, and the grid vectors are `array<real>`.
- `RungeKuttaBase.RungeKutta` adds its own `Nstep` and `uc`.
- Each solver is a class over its base, whose methods fill the arrays with
  the source's loops.
- Every fill is proved against a pure specification: `Grid.Times` for the
  times, and for the values `Grid.Trajectory`, a recurrence with a
  start-up formula (the first m steps) and a rule for the later ones.
- Each solver's `Path` instantiates that recurrence with the solver's own
  formulas. Its `Recurrence` lemma says what every grid point is, and its
  `ExactOnAffine` lemma says the values are the exact solution when f is
  affine in t (or constant, where that is the best the scheme can do).
- The implicit solvers' inner loops are functions with a pass budget
  (`passes`). Their methods are proved equal to those functions, and
  lemmas state what a converged value satisfies.

Arithmetic is over the mathematical reals; f is a total function value.
`rhs.f` (rhsOdeProblem.H:52) and the solver's accessors (OdeSolver.H:65-73)
are plain reads: the model applies the problem's `numericalFunction` field
and reads the solver's fields directly in every contract.

## Model

| member | source | states |
|---|---|---|
| Problem.ExactSteps | rhsOdeProblem.H:122-138 | the number of passes of the loop `i < Ns` with a real bound Ns: the least natural at or above Ns |
| Problem.ForwardDifference | rhsOdeProblem.H:53 | the result times eps equals f(t, u + eps) - f(t, u), with eps = 1e-12 |
| Problem.ReferenceRecords | rhsOdeProblem.H:135-144 | the reference trajectory has n + 1 records and starts at (t0, u0) |
| Problem.ReferenceRecordsOnGrid | rhsOdeProblem.H:135-144 | record k of the reference trajectory is at time t0 + k dt |
| Problem.RhsOdeProblem.WithExact | rhsOdeProblem.H:88-102 | the full constructor stores every argument, installs the analytic function and runs solveExact exactly once; that run is recorded as the process exit when the file does not open, and otherwise as the ExactSteps((tf - t0)/dt) reference records |
| Problem.RhsOdeProblem.constructor | rhsOdeProblem.H:105-113 | the short constructor stores f and the domain, leaves the analytic function empty and does nothing else |
| Problem.RhsOdeProblem.Copy | rhsOdeProblem.H:42 | the copy holds the same problem data |
| Problem.RhsOdeProblem.Assign | rhsOdeProblem.H:44 | after assignment the object holds the other object's data as it was before the call |
| Problem.RhsOdeProblem.Dfdt | rhsOdeProblem.H:53 | dfdt is the forward difference in u, not in t: eps * dfdt = f(t, u + eps) - f(t, u) |
| Problem.RhsOdeProblem.SetRhs | rhsOdeProblem.H:55 | replaces the right-hand side |
| Problem.RhsOdeProblem.SetExact | rhsOdeProblem.H:57 | installs the analytic function |
| Problem.RhsOdeProblem.SolveExact | rhsOdeProblem.H:120-148 | exits when the file does not open; otherwise writes (t0, u0) and then one record per pass, each feeding the new time and the previous value to the analytic function; with no analytic function it exits at the first pass; the outcome is recorded as the object's last run |
| Solver.OutcomeOf | Euler/BackwardEulerSolver.H:84-108 | a fill completes exactly when its inner loops all ended well |
| Solver.Trunc | OdeSolver.H:84 | the `int` conversion truncates toward zero: below q for q >= 0, above it for q < 0, by less than 1 |
| Solver.Resize | OdeSolver.H:98-103 | `resize` keeps the first entries and zero-fills the new ones |
| Solver.OdeSolver.Len | OdeSolver.H:100-102 | the grid vectors t and u have Ns + 1 entries |
| Solver.OdeSolver.constructor | OdeSolver.H:39-47 | the solver holds a fresh copy of the problem, reads dt, t0, tf, u0 from it, fixes Ns = Trunc((tf - t0)/dt) and sizes t, u, uc to Ns + 1 zeros |
| Solver.OdeSolver.SetStepSize | OdeSolver.H:54 | stepSize = rhs.dt() |
| Solver.OdeSolver.SetInitialTime | OdeSolver.H:55 | initialTime = rhs.t0() |
| Solver.OdeSolver.SetFinalTime | OdeSolver.H:56 | finalTime = rhs.tf() |
| Solver.OdeSolver.SetInitialValue | OdeSolver.H:57 | initialValue = rhs.u0() |
| Solver.OdeSolver.SetSize | OdeSolver.H:98-103 | t, u and uc get Ns + 1 entries, old entries kept, new ones zero; three distinct vectors stay distinct |
| Solver.OdeSolver.SetRhs | OdeSolver.H:63 | the solver's problem becomes a copy of the argument |
| Solver.OdeSolver.Seed | Euler/ForwardEulerSolver.H:71-72 | t.at(0) = t0, u.at(0) = u0 succeed exactly when the grid is non-empty; nothing else changes, and nothing at all on failure |
| Grid.Times | Euler/ForwardEulerSolver.H:76-78 | the grid of n steps has n + 1 times starting at t0 |
| Grid.TimesPrefix | Euler/ForwardEulerSolver.H:76-78 | the grid of m steps is the start of every longer grid |
| Grid.TimesStep | Euler/ForwardEulerSolver.H:78 | consecutive grid times are dt apart |
| Grid.TimesClosedForm | Euler/ForwardEulerSolver.H:78 | t_k = t0 + k dt |
| Grid.TimesEven | Euler/ForwardEulerSolver.H:78 | the grid is evenly spaced from t0 |
| Grid.Trajectory | MultiStep/AdamsMethods/AdamsBashforth/AdamsBashforth2ndSolver.H:79-100 | the values of n steps are n + 1 values starting at u0 |
| Grid.TrajectoryPrefix | MultiStep/AdamsMethods/AdamsBashforth/AdamsBashforth2ndSolver.H:95-100 | the values of j steps are the start of the values of every longer run |
| Grid.TrajectoryStep | MultiStep/AdamsMethods/AdamsBashforth/AdamsBashforth2ndSolver.H:84-98 | value k + 1 is the start-up formula at (t_k, u_k) for k < m, and the rule on t_0..t_{k+1}, u_0..u_k after that |
| Grid.OneStepTrajectory | Euler/ForwardEulerSolver.H:76-81 | a one-step solver applies its formula to (t_{i-1}, u_{i-1}) at every point |
| Grid.TrajectoryStartUp | MultiStep/AdamsMethods/AdamsBashforth/AdamsBashforth3thSolver.H:80-103 | two solvers with the same start-up formula agree on the start-up values whatever their rules |
| Grid.TrajectoryExact | MultiStep/AdamsMethods/AdamsBashforth/AdamsBashforth2ndSolver.H:79-100 | a start-up formula and a rule that are exact for a solution curve put every grid value on the curve |
| Steps.AdvanceExactOnAffine | RungeKutta/RungeKutta4th/RungeKutta4Solver.H:88-93 | the midpoint, Heun, classical Runge-Kutta and Runge-Kutta-Merson steps advance by dt times the slope at mid-step when f = a + b t |
| Steps.StepExactOnAffine | RungeKutta/RungeKutta4th/RungeKutta4Solver.H:88-93 | hence those steps carry the exact solution of f = a + b t from one grid point to the next |
| Steps.ForwardEulerExactOnConstant | Euler/ForwardEulerSolver.H:79 | the explicit Euler step carries the exact solution when f is constant |
| Steps.ForwardEulerMissesAffine | Euler/ForwardEulerSolver.H:79 | it does not when f(t, u) = t: from (0, 0) with dt = 1 it gives 0 where the solution is 1/2 |
| Steps.OneStepExact | Euler/ForwardEulerSolver.H:76-81 | a one-step formula exact as a start-up step is exact as the rule of every later step |
| Explicit.StartUp | MultiStep/AdamsMethods/AdamsBashforth/AdamsBashforth2ndSolver.H:88-91 | start-up point k is written by the start-up formula when the grid has it; otherwise the `.at` throws with the arrays unchanged |
| Explicit.Continue | MultiStep/AdamsMethods/AdamsBashforth/AdamsBashforth2ndSolver.H:95-100 | the main loop leaves t = Times and u = Trajectory over all Ns + 1 points |
| Explicit.OneStepFill | Euler/ForwardEulerSolver.H:71-81 | a one-step fill succeeds exactly when Ns >= 0 and then leaves the grid and the one-step trajectory |
| ForwardEuler.Formula | Euler/ForwardEulerSolver.H:79 | the step is u + dt f(t, u) |
| ForwardEuler.Recurrence | Euler/ForwardEulerSolver.H:76-81 | t_i = t_{i-1} + dt and u_i is one Euler step from (t_{i-1}, u_{i-1}) |
| ForwardEuler.ExactOnConstant | Euler/ForwardEulerSolver.H:76-81 | with f = a every value is u0 + a (t_i - t0) |
| ForwardEuler.ForwardEulerSolver.constructor | Euler/ForwardEulerSolver.H:30-32 | builds the base solver from the problem |
| ForwardEuler.ForwardEulerSolver.SolveToFile | Euler/ForwardEulerSolver.H:59-86 | throws with the grid untouched when the file does not open, throws out-of-range on an empty grid, completes and leaves the Euler grid otherwise |
| ForwardEuler.ForwardEulerSolver.Solve | Euler/ForwardEulerSolver.H:90-106 | the same grid; an empty grid terminates |
| ForwardEuler.ForwardEulerSolver.Fill | Euler/ForwardEulerSolver.H:71-81 | the shared body completes exactly when Ns >= 0 and leaves the Euler grid |
| Heun.Formula | RungeKutta/Heun/HeunSolver.H:89-92 | the step is u + dt/2 (k1 + k2) with k1 = f(t, u), k2 = f(t + dt, u + dt k1) |
| Heun.Recurrence | RungeKutta/Heun/HeunSolver.H:85-94 | t_i = t_{i-1} + dt and u_i is one Heun step from the point before |
| Heun.ExactOnAffine | RungeKutta/Heun/HeunSolver.H:85-94 | with f = a + b t every value is the exact solution |
| Heun.HeunSolver.constructor | RungeKutta/Heun/HeunSolver.H:34-36 | builds the Runge-Kutta base from the problem |
| Heun.HeunSolver.SolveToFile | RungeKutta/Heun/HeunSolver.H:68-98 | when the file does not open the error is only reported, the grid is untouched and solve returns; otherwise the Heun grid is filled |
| Heun.HeunSolver.Solve | RungeKutta/Heun/HeunSolver.H:101-121 | always completes with the Heun grid |
| Heun.HeunSolver.Fill | RungeKutta/Heun/HeunSolver.H:80-94 | the shared body leaves the Heun grid |
| ModifiedEuler.Formula | RungeKutta/ModifiedEuler/ModifiedEulerSolver.H:87-90 | the step is u + dt k2 with k1 = f(t, u), k2 = f(t + dt/2, u + k1 dt/2) |
| ModifiedEuler.Recurrence | RungeKutta/ModifiedEuler/ModifiedEulerSolver.H:83-93 | t_i = t_{i-1} + dt and u_i is one midpoint step from the point before |
| ModifiedEuler.ExactOnAffine | RungeKutta/ModifiedEuler/ModifiedEulerSolver.H:83-93 | with f = a + b t every value is the exact solution |
| ModifiedEuler.ModifiedEulerSolver.constructor | RungeKutta/ModifiedEuler/ModifiedEulerSolver.H:32-34 | builds the Runge-Kutta base from the problem |
| ModifiedEuler.ModifiedEulerSolver.SolveToFile | RungeKutta/ModifiedEuler/ModifiedEulerSolver.H:68-96 | throws with the grid untouched when the file does not open, completes with the midpoint grid otherwise |
| ModifiedEuler.ModifiedEulerSolver.Solve | RungeKutta/ModifiedEuler/ModifiedEulerSolver.H:100-120 | always completes with the midpoint grid |
| ModifiedEuler.ModifiedEulerSolver.Fill | RungeKutta/ModifiedEuler/ModifiedEulerSolver.H:78-93 | the shared body leaves the midpoint grid |
| RungeKutta4.Formula | RungeKutta/RungeKutta4th/RungeKutta4Solver.H:88-93 | the step is u + dt/6 (k1 + 2 k2 + 2 k3 + k4) with the four stages of the source |
| RungeKutta4.Recurrence | RungeKutta/RungeKutta4th/RungeKutta4Solver.H:84-95 | t_i = t_{i-1} + dt and u_i is one classical Runge-Kutta step from the point before |
| RungeKutta4.ExactOnAffine | RungeKutta/RungeKutta4th/RungeKutta4Solver.H:84-95 | with f = a + b t every value is the exact solution |
| RungeKutta4.RungeKutta4Solver.constructor | RungeKutta/RungeKutta4th/RungeKutta4Solver.H:30-32 | builds the Runge-Kutta base from the problem |
| RungeKutta4.RungeKutta4Solver.SolveToFile | RungeKutta/RungeKutta4th/RungeKutta4Solver.H:65-100 | throws with the grid untouched when the file does not open, completes with the Runge-Kutta grid otherwise |
| RungeKutta4.RungeKutta4Solver.Solve | RungeKutta/RungeKutta4th/RungeKutta4Solver.H:104-126 | always completes with the Runge-Kutta grid |
| RungeKutta4.RungeKutta4Solver.Fill | RungeKutta/RungeKutta4th/RungeKutta4Solver.H:79-95 | the shared body leaves the Runge-Kutta grid |
| RungeKuttaBase.RungeKutta.constructor | RungeKutta/RungeKutta.H:30-35 | builds the base solver, sets Nstep = Ns and sizes the family's own uc to Nstep + 1 zeros |
| RungeKuttaBase.RungeKutta.ReSize | RungeKutta/RungeKutta.H:66-69 | uc gets Nstep + 1 entries, old ones kept, new ones zero |
| LeapFrog.UpdateFormula | MultiStep/LeapFrogSolver.H:91 | the update is u_{i-1} + 2 dt f(t_i, u_i) |
| LeapFrog.Recurrence | MultiStep/LeapFrogSolver.H:71-93 | t_i = t_{i-1} + dt; u_1 is one start-up step, every later u_i the leap-frog update |
| LeapFrog.UpdateExactOnAffine | MultiStep/LeapFrogSolver.H:91 | the leap-frog update puts the next value on the solution of f = a + b t |
| LeapFrog.ExactOnAffine | MultiStep/LeapFrogSolver.H:78-93 | started by the midpoint step (solve(filename)) the values are exact for f = a + b t |
| LeapFrog.ExactOnConstant | MultiStep/LeapFrogSolver.H:111-117 | started by the Euler step (solve()) they are exact when f is constant |
| LeapFrog.EntryPointsDiffer | MultiStep/LeapFrogSolver.H:82-111 | the two overloads compute different grids: for f = t from (0, 0) with dt = 1, u_1 is 1/2 after solve(filename) and 0 after solve() |
| LeapFrog.Fill | MultiStep/LeapFrogSolver.H:71-93 | succeeds exactly when Ns >= 1; an empty grid is untouched; otherwise the points written are the grid and the leap-frog values |
| LeapFrog.LeapFrogSolver.constructor | MultiStep/LeapFrogSolver.H:30-32 | builds the base solver from the problem |
| LeapFrog.LeapFrogSolver.SolveToFile | MultiStep/LeapFrogSolver.H:59-98 | throws on a file that does not open (grid untouched) or on a grid of one point; otherwise the midpoint-started grid |
| LeapFrog.LeapFrogSolver.Solve | MultiStep/LeapFrogSolver.H:102-121 | terminates on a grid of one point; otherwise the Euler-started grid |
| AdamsBashforth2.UpdateFormula | MultiStep/AdamsMethods/AdamsBashforth/AdamsBashforth2ndSolver.H:98 | the update is u_i + dt/2 (3 f_i - f_{i-1}) |
| AdamsBashforth2.Recurrence | MultiStep/AdamsMethods/AdamsBashforth/AdamsBashforth2ndSolver.H:79-100 | u_1 is a Heun step, every later u_i the 2-step update |
| AdamsBashforth2.Weights | MultiStep/AdamsMethods/AdamsBashforth/AdamsBashforth2ndSolver.H:98 | the weights integrate an affine slope exactly over the step |
| AdamsBashforth2.UpdateExactOnAffine | MultiStep/AdamsMethods/AdamsBashforth/AdamsBashforth2ndSolver.H:98 | the update puts the next value on the solution of f = a + b t |
| AdamsBashforth2.ExactOnAffine | MultiStep/AdamsMethods/AdamsBashforth/AdamsBashforth2ndSolver.H:84-100 | with f = a + b t every value is the exact solution |
| AdamsBashforth2.FillWith | MultiStep/AdamsMethods/AdamsBashforth/AdamsBashforth2ndSolver.H:79-100 | for any start-up step and update: succeeds exactly when Ns >= 1, leaves an empty grid untouched and otherwise the grid and the trajectory |
| AdamsBashforth2.Fill | MultiStep/AdamsMethods/AdamsBashforth/AdamsBashforth2ndSolver.H:79-100 | the same with the solver's own formulas: the grid and its Path |
| AdamsBashforth2.AdamsBashforth2Solver.constructor | MultiStep/AdamsMethods/AdamsBashforth/AdamsBashforth2ndSolver.H:33-35 | builds the base solver from the problem |
| AdamsBashforth2.AdamsBashforth2Solver.SolveToFile | MultiStep/AdamsMethods/AdamsBashforth/AdamsBashforth2ndSolver.H:66-105 | throws on a file that does not open (grid untouched) or when Ns < 1; completes with the solver's grid otherwise |
| AdamsBashforth2.AdamsBashforth2Solver.Solve | MultiStep/AdamsMethods/AdamsBashforth/AdamsBashforth2ndSolver.H:109-136 | terminates when Ns < 1, completes with the same grid otherwise |
| AdamsBashforth3.UpdateFormula | MultiStep/AdamsMethods/AdamsBashforth/AdamsBashforth3thSolver.H:111-112 | the update is u_i + dt/12 (23 f_i - 16 f_{i-1} + 5 f_{i-2}) |
| AdamsBashforth3.Recurrence | MultiStep/AdamsMethods/AdamsBashforth/AdamsBashforth3thSolver.H:80-114 | u_1, u_2 are Heun steps, every later u_i the 3-step update |
| AdamsBashforth3.Weights | MultiStep/AdamsMethods/AdamsBashforth/AdamsBashforth3thSolver.H:111-112 | the weights integrate an affine slope exactly over the step |
| AdamsBashforth3.UpdateExactOnAffine | MultiStep/AdamsMethods/AdamsBashforth/AdamsBashforth3thSolver.H:111-112 | the update puts the next value on the solution of f = a + b t |
| AdamsBashforth3.ExactOnAffine | MultiStep/AdamsMethods/AdamsBashforth/AdamsBashforth3thSolver.H:86-114 | with f = a + b t every value is the exact solution |
| AdamsBashforth3.FillWith | MultiStep/AdamsMethods/AdamsBashforth/AdamsBashforth3thSolver.H:80-114 | for any start-up step and update: succeeds exactly when Ns >= 2, leaves an empty grid untouched and otherwise the grid and the trajectory |
| AdamsBashforth3.Fill | MultiStep/AdamsMethods/AdamsBashforth/AdamsBashforth3thSolver.H:80-114 | the same with the solver's own formulas: the grid and its Path |
| AdamsBashforth3.AdamsBashforth3Solver.constructor | MultiStep/AdamsMethods/AdamsBashforth/AdamsBashforth3thSolver.H:34-36 | builds the base solver from the problem |
| AdamsBashforth3.AdamsBashforth3Solver.SolveToFile | MultiStep/AdamsMethods/AdamsBashforth/AdamsBashforth3thSolver.H:67-119 | throws on a file that does not open (grid untouched) or when Ns < 2; completes with the solver's grid otherwise |
| AdamsBashforth3.AdamsBashforth3Solver.Solve | MultiStep/AdamsMethods/AdamsBashforth/AdamsBashforth3thSolver.H:123-166 | terminates when Ns < 2, completes with the same grid otherwise |
| AdamsBashforth4.UpdateFormula | MultiStep/AdamsMethods/AdamsBashforth/AdamsBashforth4thSolver.H:130-133 | the update is u_i + dt/24 (55 f_i - 59 f_{i-1} + 37 f_{i-2} - 9 f_{i-3}) |
| AdamsBashforth4.Recurrence | MultiStep/AdamsMethods/AdamsBashforth/AdamsBashforth4thSolver.H:82-135 | u_1 .. u_3 are classical Runge-Kutta steps, every later u_i the 4-step update |
| AdamsBashforth4.Weights | MultiStep/AdamsMethods/AdamsBashforth/AdamsBashforth4thSolver.H:130-133 | the weights integrate an affine slope exactly over the step |
| AdamsBashforth4.UpdateExactOnAffine | MultiStep/AdamsMethods/AdamsBashforth/AdamsBashforth4thSolver.H:130-133 | the update puts the next value on the solution of f = a + b t |
| AdamsBashforth4.ExactOnAffine | MultiStep/AdamsMethods/AdamsBashforth/AdamsBashforth4thSolver.H:88-135 | with f = a + b t every value is the exact solution |
| AdamsBashforth4.FillWith | MultiStep/AdamsMethods/AdamsBashforth/AdamsBashforth4thSolver.H:82-135 | for any start-up step and update: succeeds exactly when Ns >= 3, leaves an empty grid untouched and otherwise the grid and the trajectory |
| AdamsBashforth4.Fill | MultiStep/AdamsMethods/AdamsBashforth/AdamsBashforth4thSolver.H:82-135 | the same with the solver's own formulas: the grid and its Path |
| AdamsBashforth4.AdamsBashforth4Solver.constructor | MultiStep/AdamsMethods/AdamsBashforth/AdamsBashforth4thSolver.H:34-36 | builds the base solver from the problem |
| AdamsBashforth4.AdamsBashforth4Solver.SolveToFile | MultiStep/AdamsMethods/AdamsBashforth/AdamsBashforth4thSolver.H:69-140 | throws on a file that does not open (grid untouched) or when Ns < 3; completes with the solver's grid otherwise |
| AdamsBashforth4.AdamsBashforth4Solver.Solve | MultiStep/AdamsMethods/AdamsBashforth/AdamsBashforth4thSolver.H:144-205 | terminates when Ns < 3, completes with the same grid otherwise |
| AdamsBashforth5.UpdateFormula | MultiStep/AdamsMethods/AdamsBashforth/AdamsBashforth5thSolver.H:144-148 | the update is u_i + dt (1901/720 f_i - 1387/360 f_{i-1} + 109/30 f_{i-2} - 637/360 f_{i-3} + 251/720 f_{i-4}) |
| AdamsBashforth5.Recurrence | MultiStep/AdamsMethods/AdamsBashforth/AdamsBashforth5thSolver.H:82-150 | u_1 .. u_4 are classical Runge-Kutta steps, every later u_i the 5-step update |
| AdamsBashforth5.Weights | MultiStep/AdamsMethods/AdamsBashforth/AdamsBashforth5thSolver.H:144-148 | the weights integrate an affine slope exactly over the step |
| AdamsBashforth5.UpdateExactOnAffine | MultiStep/AdamsMethods/AdamsBashforth/AdamsBashforth5thSolver.H:144-148 | the update puts the next value on the solution of f = a + b t |
| AdamsBashforth5.ExactOnAffine | MultiStep/AdamsMethods/AdamsBashforth/AdamsBashforth5thSolver.H:88-150 | with f = a + b t every value is the exact solution |
| AdamsBashforth5.FillWith | MultiStep/AdamsMethods/AdamsBashforth/AdamsBashforth5thSolver.H:82-150 | for any start-up step and update: succeeds exactly when Ns >= 4, leaves an empty grid untouched and otherwise the grid and the trajectory |
| AdamsBashforth5.Fill | MultiStep/AdamsMethods/AdamsBashforth/AdamsBashforth5thSolver.H:82-150 | the same with the solver's own formulas: the grid and its Path |
| AdamsBashforth5.AdamsBashforth5Solver.constructor | MultiStep/AdamsMethods/AdamsBashforth/AdamsBashforth5thSolver.H:34-36 | builds the base solver from the problem |
| AdamsBashforth5.AdamsBashforth5Solver.SolveToFile | MultiStep/AdamsMethods/AdamsBashforth/AdamsBashforth5thSolver.H:69-156 | throws on a file that does not open (grid untouched) or when Ns < 4; completes with the solver's grid otherwise |
| AdamsBashforth5.AdamsBashforth5Solver.Solve | MultiStep/AdamsMethods/AdamsBashforth/AdamsBashforth5thSolver.H:160-238 | terminates when Ns < 4, completes with the same grid otherwise |
| AdamsMethods.CorrectedCloses | MultiStep/AdamsMethods/AdamsMoulton/AdamsMoulton3thSolver.H:137-156 | a converged corrector loop ends with a value that is the corrector applied to a value less than pcToll = 1e-10 away from it |
| AdamsMethods.ConstantMapConverges | MultiStep/AdamsMethods/AdamsMoulton/AdamsMoulton3thSolver.H:137-156 | a corrector whose slope does not depend on u converges in one pass to its constant value |
| AdamsMethods.Correct | MultiStep/AdamsMethods/AdamsMoulton/AdamsMoulton3thSolver.H:132-156 | the corrector loop (error = 1, fCorrOld from the prediction, two corrector evaluations a pass, stop once the error is below pcToll) ends as the function Corrected says |
| AdamsMethods.PCRuleCloses | MultiStep/AdamsMethods/AdamsMoulton/AdamsMoulton3thSolver.H:124-158 | a stored corrected value satisfies the corrector equation up to pcToll |
| AdamsMethods.PCRuleOnAffine | MultiStep/AdamsMethods/AdamsMoulton/AdamsMoulton3thSolver.H:137-156 | for f = a + b t the loop converges at once, whatever the predictor, to the corrector fed with the slope at t_{i+1} |
| AdamsMethods.AffineConverges | MultiStep/AdamsMethods/AdamsMoulton/AdamsMoulton3thSolver.H:118-162 | for f = a + b t every corrector loop of the grid converges |
| AdamsMethods.PCStep | MultiStep/AdamsMethods/AdamsMoulton/AdamsMoulton3thSolver.H:120-158 | point i is written exactly when its corrector loop converges, and then extends the trajectory by one point |
| AdamsMethods.PCContinue | MultiStep/AdamsMethods/AdamsMoulton/AdamsMoulton3thSolver.H:118-162 | the main loop runs to the end exactly when every corrector loop converges, and then leaves the grid and the trajectory |
| AdamsMoulton3.CorrectorFormula | MultiStep/AdamsMethods/AdamsMoulton/AdamsMoulton3thSolver.H:139-147 | the corrector is u_i + dt/12 (5 phi + 8 f_i - f_{i-1}) |
| AdamsMoulton3.Recurrence | MultiStep/AdamsMethods/AdamsMoulton/AdamsMoulton3thSolver.H:90-162 | u_1, u_2 are Heun steps, every later u_i the predictor-corrector step (3-step Adams-Bashforth prediction) |
| AdamsMoulton3.CorrectorWeights | MultiStep/AdamsMethods/AdamsMoulton/AdamsMoulton3thSolver.H:139-141 | the corrector weights integrate an affine slope exactly over the step |
| AdamsMoulton3.StepExactOnAffine | MultiStep/AdamsMethods/AdamsMoulton/AdamsMoulton3thSolver.H:118-158 | the predictor-corrector step puts the next value on the solution of f = a + b t |
| AdamsMoulton3.ExactOnAffine | MultiStep/AdamsMethods/AdamsMoulton/AdamsMoulton3thSolver.H:90-162 | with f = a + b t every corrector loop converges and every value is the exact solution |
| AdamsMoulton3.FillWith | MultiStep/AdamsMethods/AdamsMoulton/AdamsMoulton3thSolver.H:90-162 | out-of-range when Ns < 2, completed exactly when every corrector loop converges, not converged otherwise; the written grid is the trajectory |
| AdamsMoulton3.Fill | MultiStep/AdamsMethods/AdamsMoulton/AdamsMoulton3thSolver.H:90-162 | the same with the solver's own formulas: the grid and its Path |
| AdamsMoulton3.AdamsMoulton3Solver.constructor | MultiStep/AdamsMethods/AdamsMoulton/AdamsMoulton3thSolver.H:33-35 | builds the base solver from the problem |
| AdamsMoulton3.AdamsMoulton3Solver.SolveToFile | MultiStep/AdamsMethods/AdamsMoulton/AdamsMoulton3thSolver.H:77-167 | throws on a file that does not open (grid untouched) or when Ns < 2; completes with the solver's grid when every corrector loop converges |
| AdamsMoulton3.AdamsMoulton3Solver.Solve | MultiStep/AdamsMethods/AdamsMoulton/AdamsMoulton3thSolver.H:171-250 | terminates when Ns < 2; otherwise the same |
| AdamsMoulton4.PredictorFormula | MultiStep/AdamsMethods/AdamsMoulton/AdamsMoulton4thSolver.H:147-150 | the predictor as written: u_i + dt/24 (55 f_i - 59 f_{i-1} + 37 f_{i-2} + 9 f_{i-3}) |
| AdamsMoulton4.PredictorMissesConstant | MultiStep/AdamsMethods/AdamsMoulton/AdamsMoulton4thSolver.H:147-150 | for f = 1 on u = t at t = 0..3 the predictor as written gives 4.75, the four-step Adams-Bashforth formula and the solution give 4 |
| AdamsMoulton4.CorrectorFormula | MultiStep/AdamsMethods/AdamsMoulton/AdamsMoulton4thSolver.H:163-174 | the corrector is u_i + dt/24 (9 phi + 19 f_i - 5 f_{i-1} + f_{i-2}) |
| AdamsMoulton4.Recurrence | MultiStep/AdamsMethods/AdamsMoulton/AdamsMoulton4thSolver.H:92-186 | u_1 .. u_3 are classical Runge-Kutta steps, every later u_i the predictor-corrector step |
| AdamsMoulton4.CorrectorWeights | MultiStep/AdamsMethods/AdamsMoulton/AdamsMoulton4thSolver.H:163-167 | the corrector weights integrate an affine slope exactly over the step |
| AdamsMoulton4.StepExactOnAffine | MultiStep/AdamsMethods/AdamsMoulton/AdamsMoulton4thSolver.H:141-186 | with any predictor the predictor-corrector step puts the next value on the solution of f = a + b t |
| AdamsMoulton4.ExactOnAffine | MultiStep/AdamsMethods/AdamsMoulton/AdamsMoulton4thSolver.H:92-186 | with f = a + b t every corrector loop converges and every value is the exact solution, the wrong predictor weight notwithstanding |
| AdamsMoulton4.IntendedExactOnAffine | MultiStep/AdamsMethods/AdamsMoulton/AdamsMoulton4thSolver.H:147-150 | the solver with the intended (-9) predictor is exact on f = a + b t as well |
| AdamsMoulton4.FillWith | MultiStep/AdamsMethods/AdamsMoulton/AdamsMoulton4thSolver.H:92-186 | out-of-range when Ns < 3, completed exactly when every corrector loop converges, not converged otherwise; the written grid is the trajectory |
| AdamsMoulton4.Fill | MultiStep/AdamsMethods/AdamsMoulton/AdamsMoulton4thSolver.H:92-186 | the same with the solver's formulas as written: the grid and its Path |
| AdamsMoulton4.FillIntended | MultiStep/AdamsMethods/AdamsMoulton/AdamsMoulton4thSolver.H:92-186 | the same with the intended predictor: the grid and IntendedPath |
| AdamsMoulton4.AdamsMoulton4Solver.constructor | MultiStep/AdamsMethods/AdamsMoulton/AdamsMoulton4thSolver.H:33-35 | builds the base solver from the problem |
| AdamsMoulton4.AdamsMoulton4Solver.SolveToFile | MultiStep/AdamsMethods/AdamsMoulton/AdamsMoulton4thSolver.H:79-193 | throws on a file that does not open (grid untouched) or when Ns < 3; completes with the solver's grid when every corrector loop converges |
| AdamsMoulton4.AdamsMoulton4Solver.Solve | MultiStep/AdamsMethods/AdamsMoulton/AdamsMoulton4thSolver.H:197-302 | terminates when Ns < 3; otherwise the same |
| AdamsMoulton4.AdamsMoulton4Solver.SolveCorrected | MultiStep/AdamsMethods/AdamsMoulton/AdamsMoulton4thSolver.H:197-302 | solve() with the intended predictor: terminates when Ns < 3, otherwise completes with the intended grid when every corrector loop converges |
| AdamsMoulton5.CorrectorFormula | MultiStep/AdamsMethods/AdamsMoulton/AdamsMoulton5thSolver.H:183-187 | the corrector is u_i + dt/720 (251 phi + 646 f_i - 264 f_{i-1} + 106 f_{i-2} - 19 f_{i-3}) |
| AdamsMoulton5.Recurrence | MultiStep/AdamsMethods/AdamsMoulton/AdamsMoulton5thSolver.H:94-208 | u_1 .. u_4 are Runge-Kutta-Merson steps, every later u_i the predictor-corrector step (5-step Adams-Bashforth prediction) |
| AdamsMoulton5.CorrectorWeights | MultiStep/AdamsMethods/AdamsMoulton/AdamsMoulton5thSolver.H:183-187 | the corrector weights integrate an affine slope exactly over the step |
| AdamsMoulton5.StepExactOnAffine | MultiStep/AdamsMethods/AdamsMoulton/AdamsMoulton5thSolver.H:160-208 | the predictor-corrector step puts the next value on the solution of f = a + b t |
| AdamsMoulton5.ExactOnAffine | MultiStep/AdamsMethods/AdamsMoulton/AdamsMoulton5thSolver.H:94-208 | with f = a + b t every corrector loop converges and every value is the exact solution |
| AdamsMoulton5.FillWith | MultiStep/AdamsMethods/AdamsMoulton/AdamsMoulton5thSolver.H:94-208 | out-of-range when Ns < 4, completed exactly when every corrector loop converges, not converged otherwise; the written grid is the trajectory |
| AdamsMoulton5.Fill | MultiStep/AdamsMethods/AdamsMoulton/AdamsMoulton5thSolver.H:94-208 | the same with the solver's own formulas: the grid and its Path |
| AdamsMoulton5.MersonOnSquare | MultiStep/AdamsMethods/AdamsMoulton/AdamsMoulton5thSolver.H:98-106 | one Runge-Kutta-Merson step of f = t * t from (0, 0) with dt = 1 gives 1/3 |
| AdamsMoulton5.MersonStart | MultiStep/AdamsMethods/AdamsMoulton/AdamsMoulton5thSolver.H:98-106 | so the fifth-order solver's u_1 is 1/3 there |
| AdamsMoulton5.HeunStart | MultiStep/AdamsMethods/AdamsMoulton/AdamsMoulton5thSolver.H:228-232 | the third-order solver's u_1 is 1/2 there |
| AdamsMoulton5.EntryPointsDiffer | MultiStep/AdamsMethods/AdamsMoulton/AdamsMoulton5thSolver.H:219-298 | the grid solve() computes differs from the fifth-order grid of solve(filename) |
| AdamsMoulton5.AdamsMoulton5Solver.constructor | MultiStep/AdamsMethods/AdamsMoulton/AdamsMoulton5thSolver.H:34-36 | builds the base solver from the problem |
| AdamsMoulton5.AdamsMoulton5Solver.SolveToFile | MultiStep/AdamsMethods/AdamsMoulton/AdamsMoulton5thSolver.H:81-215 | throws on a file that does not open (grid untouched) or when Ns < 4; completes with the fifth-order grid when every corrector loop converges |
| AdamsMoulton5.AdamsMoulton5Solver.Solve | MultiStep/AdamsMethods/AdamsMoulton/AdamsMoulton5thSolver.H:219-298 | solve() as written: terminates when Ns < 2; otherwise completes with the third-order grid when its corrector loops converge |
| AdamsMoulton5.AdamsMoulton5Solver.SolveCorrected | MultiStep/AdamsMethods/AdamsMoulton/AdamsMoulton5thSolver.H:219-298 | solve() as intended: terminates when Ns < 4; otherwise completes with the fifth-order grid when every corrector loop converges |
| BackwardEuler.NewtonCloses | Euler/BackwardEulerSolver.H:94-103 | a settled Newton loop ends one Newton step from its previous iterate, less than toll = 1e-12 away, with a residual at most toll times the slope |
| BackwardEuler.LinearSlope | Euler/BackwardEulerSolver.H:96-97 | for f = c + lam u the estimated slope 1 - dt dfdt is exactly 1 - dt lam |
| BackwardEuler.NewtonOnLinear | Euler/BackwardEulerSolver.H:94-103 | for f = c + lam u with 1 - dt lam != 0 the loop settles within two passes (given at least two), on the root of the implicit Euler equation |
| BackwardEuler.UpdateFormula | Euler/BackwardEulerSolver.H:86-105 | the step reads the new time t_i and u_{i-1} only |
| BackwardEuler.Recurrence | Euler/BackwardEulerSolver.H:84-108 | t_i = t_{i-1} + dt and u_i is the stored Newton value of the step from u_{i-1} |
| BackwardEuler.StepCloses | Euler/BackwardEulerSolver.H:94-105 | a stored value is the last Newton iterate, within toll of the one before, whose residual is within toll of zero relative to the slope |
| BackwardEuler.HaltOf | Euler/BackwardEulerSolver.H:94-103 | a step ends well exactly when its Newton loop settles |
| BackwardEuler.FirstHaltRan | Euler/BackwardEulerSolver.H:84-108 | the fill runs to the end exactly when every step's Newton loop settles |
| BackwardEuler.FirstHaltAt | Euler/BackwardEulerSolver.H:84-108 | otherwise it ends as the first failing step does |
| BackwardEuler.SettlesOnLinear | Euler/BackwardEulerSolver.H:84-108 | for f = c + lam u with 1 - dt lam != 0 every Newton loop settles |
| BackwardEuler.StepValueOnLinear | Euler/BackwardEulerSolver.H:88-105 | there the stored value v solves (1 - dt lam) v = u_{i-1} + dt c |
| BackwardEuler.StepOnLinear | Euler/BackwardEulerSolver.H:84-108 | so grid value i solves the implicit Euler equation from value i - 1 |
| BackwardEuler.ExactOnLinear | Euler/BackwardEulerSolver.H:84-108 | the whole fill completes and every value solves the implicit Euler recurrence |
| BackwardEuler.NewtonLoop | Euler/BackwardEulerSolver.H:90-103 | the while loop (err = 1, stop once err <= toll) ends as the function Newton says |
| BackwardEuler.Advance | Euler/BackwardEulerSolver.H:86-105 | point i: t_i written, the Newton loop run from the predictor; when it settles u_i is written and the trajectory extended, the earlier values unchanged |
| BackwardEuler.Fill | Euler/BackwardEulerSolver.H:77-108 | out-of-range with nothing written on an empty grid; otherwise ends as Ends says, and a completed fill leaves the grid and the implicit Euler values |
| BackwardEuler.BackwardEulerSolver.constructor | Euler/BackwardEulerSolver.H:31-33 | builds the base solver from the problem |
| BackwardEuler.BackwardEulerSolver.SolveToFile | Euler/BackwardEulerSolver.H:64-112 | throws on a file that does not open (grid untouched) or an empty grid; otherwise ends as the fill does |
| BackwardEuler.BackwardEulerSolver.Solve | Euler/BackwardEulerSolver.H:116-150 | terminates on an empty grid; otherwise ends as the fill does |
| CrankNicholson.Corrected | RungeKutta/CrankNicholson/CrankNicholsonSolver.H:89 | the corrected values of n steps are n + 1 values starting at u0 |
| CrankNicholson.CorrectedPrefix | RungeKutta/CrankNicholson/CrankNicholsonSolver.H:83-93 | the corrected values of j steps are the start of every longer run |
| CrankNicholson.CorrectorStep | RungeKutta/CrankNicholson/CrankNicholsonSolver.H:89 | uc_i = uc_{i-1} + dt/2 (f(t_{i-1}, uc_{i-1}) + f(t_i, u_i)) |
| CrankNicholson.CorrectedExactOnAffine | RungeKutta/CrankNicholson/CrankNicholsonSolver.H:89 | on an even grid with f = a + b t the corrected values are exact whatever the predicted ones |
| CrankNicholson.ExactOnAffine | RungeKutta/CrankNicholson/CrankNicholsonSolver.H:83-93 | with f = a + b t every corrected value uc_i is the exact solution |
| CrankNicholson.FirstStepIsHeun | RungeKutta/CrankNicholson/CrankNicholsonSolver.H:85-89 | uc_1 is one Heun step from (t0, u0) |
| CrankNicholson.CorrectedGridStep | RungeKutta/CrankNicholson/CrankNicholsonSolver.H:85-89 | the corrected values satisfy the corrector equation at every point |
| CrankNicholson.Recurrence | RungeKutta/CrankNicholson/CrankNicholsonSolver.H:83-93 | at every point i >= 1: t_i = t_{i-1} + dt, u_i is an explicit Euler step from u_{i-1}, uc_i the corrector |
| CrankNicholson.GridSteps | RungeKutta/CrankNicholson/CrankNicholsonSolver.H:83-93 | the same for all points at once |
| CrankNicholson.Advance | RungeKutta/CrankNicholson/CrankNicholsonSolver.H:85-89 | point i writes t_i, u_i and uc_i and extends all three grids by one point |
| CrankNicholson.FillGrids | RungeKutta/CrankNicholson/CrankNicholsonSolver.H:76-93 | given grids that satisfy the recurrence, the loop leaves t, u and uc equal to them |
| CrankNicholson.FillWith | RungeKutta/CrankNicholson/CrankNicholsonSolver.H:76-93 | the fill leaves t = Times, u = the explicit Euler values and uc = the corrected values |
| CrankNicholson.CrankNicholsonSolver.constructor | RungeKutta/CrankNicholson/CrankNicholsonSolver.H:32-34 | builds the Runge-Kutta base from the problem |
| CrankNicholson.CrankNicholsonSolver.SolveToFile | RungeKutta/CrankNicholson/CrankNicholsonSolver.H:64-98 | throws with the grids untouched when the file does not open, completes with all three grids filled otherwise |
| CrankNicholson.CrankNicholsonSolver.Solve | RungeKutta/CrankNicholson/CrankNicholsonSolver.H:102-125 | always completes with all three grids filled |

## Left out

- Floating point: every value is a mathematical real. The model has no rounding, inf or NaN. The grid is exactly evenly spaced, where in the source t_i = t_{i-1} + dt accumulates rounding.
- A zero denominator in a Newton step (1 - dt dfdt = 0): in the source a nonzero residual gives an infinite iterate, which keeps the `err > toll` loop running, and a NaN error ends it (at once for 0/0). The source then stores a non-finite value at u.at(i) and keeps filling later points. The model ends the fill at that step with `SingularSlope`.
- Output: the files and console streams the solvers and `solveExact` write to are not modelled. A file that does not open is the parameter `fileOpens` (or `sinkOpens`); the records `solveExact` writes are its result.
- `exit(-1)` in `solveExact` is the result `Exited`. A call of an empty analytic function (std::bad_function_call inside a noexcept function) is also `Exited`.
- An out-of-range `.at()` is the outcome `OutOfRange` in `solve(filename)` and `Terminated` in the noexcept `solve()`. The stack unwinding itself is not modelled.
- An inner loop that never converges has no bound in the source: the backward Euler Newton loop (`while (err > toll)`) and the Adams-Moulton corrector loops (`while (error >= pcToll)`). The model allows each one `passes` passes and can answer `NotConverged`, which the source never returns. It says nothing about runs that need more passes.
- The scratch members (k1..k8, uOld, uNew, uPred, fPred, uCorr, uCorrOld, fCorr, fCorrOld, error, err, iter, j) are locals of the methods. Their values after a call are not modelled.
- The `max_it` counter of backward Euler is declared but never used in the source's loop condition, and is not modelled.
- Integer widths: Ns is an unbounded `int` and `Nstep` a `nat`. The constructors require Ns >= -1 (a negative `resize` terminates), and the Runge-Kutta family requires Ns >= 0 (a negative quotient converted to `size_t`); those cases are preconditions rather than modelled failures. `size_t` wrap-around is not modelled.
- Problem.RhsOdeProblem.SolveExact: requires dt != 0, and so does `WithExact`. In the source dt = 0 gives an infinite bound when tf > t0 (the loop never ends) and a bound of 0 or NaN when tf <= t0 (no pass, only the record (t0, u0)). Neither case is modelled.
- `Problem.ExactSteps` counts the passes of `solveExact`'s loop, whose index is a `size_t` compared against a real bound.
- Templates over float and double are one model over the reals. The virtual interface of `AbstractODESolver` (abstractOdeSolver.H) is not part of this model, nor is `AdamsMoulton2nd`.
- Class hierarchy: `Euler`, `MultiStep` and `AdamsMethods` add no state and are not separate classes. Each solver holds its `OdeSolver` (or `RungeKutta`) base as a field.
- Test drivers (test/main_problem*.cpp) are not modelled.
- BackwardEuler.Fill: after a step fails, the model states the outcome only, not the partial contents of u.
- CrankNicholson.FirstStepIsHeun: the predictor u is explicit Euler, independent of uc. So the scheme is Heun's method only at the first step. Later steps are not related to Heun's step.
- The `Recurrence` lemmas of the multi-step solvers state each value as the rule applied to the points before it. The rule is written out on its window of values in the separate `UpdateFormula`/`CorrectorFormula` lemmas.

## Findings

| source | as written | input that shows it | evidently intended | confidence | as-written member | corrected member |
|---|---|---|---|---|---|---|
| MultiStep/AdamsMethods/AdamsMoulton/AdamsMoulton4thSolver.H:150 | the four-step predictor has weight +9 on f(t_{i-3}, u_{i-3}) (and at line 260 in solve()) | f = 1 on the exact values u = t at t = 0, 1, 2, 3, dt = 1: it predicts 4.75, the solution is 4 | -9, the four-step Adams-Bashforth weight that AdamsBashforth4thSolver.H:133 uses | high, not executed | AdamsMoulton4.PredictorMissesConstant | AdamsMoulton4.AdamsMoulton4Solver.SolveCorrected |
| MultiStep/AdamsMethods/AdamsMoulton/AdamsMoulton5thSolver.H:219-298 | solve() runs the third-order scheme: Heun start-up, three-step predictor, two-step corrector | f = t * t from (0, 0), dt = 1: u_1 is 1/2 instead of the Runge-Kutta-Merson 1/3 of solve(filename) | the fifth-order scheme of solve(filename) | high, not executed | AdamsMoulton5.EntryPointsDiffer | AdamsMoulton5.AdamsMoulton5Solver.SolveCorrected |

In the first row the corrector dominates: on an affine f both predictors
lead to the exact values (`AdamsMoulton4.ExactOnAffine`,
`AdamsMoulton4.IntendedExactOnAffine`). Only the intended predictor is exact
on its own (`AdamsBashforth4.UpdateExactOnAffine`).
