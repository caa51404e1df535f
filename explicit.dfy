/** The grid loop of the explicit solvers: the start-up writes of the
    multi-step solvers and the main loop that fills every later point
    from the points before it. */
module Explicit {
  import opened Problem
  import opened Solver
  import opened Grid

  /** t_0 .. t_k and u_0 .. u_k of s hold the grid and the trajectory. */
  ghost predicate Filled(s: OdeSolver, start: Step, m: nat, rule: Rule, k: nat)
    reads s, s.t, s.u
  {
    && k < s.t.Length && k < s.u.Length
    && s.t[..k + 1] == Times(s.initialTime, s.stepSize, k)
    && s.u[..k + 1] == Trajectory(start, m, rule, s.initialTime, s.stepSize, s.initialValue, k)
  }

  /** Start-up point k: u.at(k) = start(t.at(k-1), u.at(k-1)), then
      t.at(k) = t.at(k-1) + dt(); u.at(k) throws when k is past the end
      of the grid, before anything is written. */
  method StartUp(s: OdeSolver, start: Step, m: nat, rule: Rule, k: nat) returns (ok: bool)
    requires s.Valid() && 1 <= k <= m && k <= s.Len()
    requires Filled(s, start, m, rule, k - 1)
    modifies s.t, s.u
    ensures ok == (k < s.Len())
    ensures ok ==> Filled(s, start, m, rule, k)
    ensures ok ==> s.t[k + 1..] == old(s.t[k + 1..]) && s.u[k + 1..] == old(s.u[k + 1..])
    ensures !ok ==> unchanged(s.t) && unchanged(s.u)
    ensures !ok ==> s.t[..] == Times(s.initialTime, s.stepSize, k - 1)
    ensures !ok ==> s.u[..] == Trajectory(start, m, rule, s.initialTime, s.stepSize, s.initialValue, k - 1)
  {
    if k == s.Len() {
      assert s.t[..] == s.t[..k] && s.u[..] == s.u[..k];
      return false;
    }
    s.u[k] := start(s.t[k - 1], s.u[k - 1]);
    s.t[k] := s.t[k - 1] + s.stepSize;
    assert s.t[..k + 1] == s.t[..k] + [s.t[k]];
    assert s.u[..k + 1] == s.u[..k] + [s.u[k]];
    ok := true;
  }

  /** The main loop: for i = m+1 .. Ns, t.at(i) = t.at(i-1) + dt() and
      u.at(i) is the rule applied to t_0 .. t_i and u_0 .. u_{i-1}. No
      index leaves the grid. */
  method Continue(s: OdeSolver, start: Step, m: nat, rule: Rule)
    requires s.Valid() && m <= s.Ns
    requires Filled(s, start, m, rule, m)
    modifies s.t, s.u
    ensures s.t[..] == Times(s.initialTime, s.stepSize, s.Ns)
    ensures s.u[..] == Trajectory(start, m, rule, s.initialTime, s.stepSize, s.initialValue, s.Ns)
  {
    var dt := s.stepSize;
    var i := m + 1;
    while i <= s.Ns
      invariant m + 1 <= i <= s.Ns + 1
      invariant Filled(s, start, m, rule, i - 1)
    {
      var ts, us := s.t[..i], s.u[..i];
      s.t[i] := s.t[i - 1] + dt;
      assert s.t[..i + 1] == ts + [s.t[i]];
      s.u[i] := rule(s.t[..i + 1], us);
      assert s.u[..i + 1] == us + [s.u[i]];
      i := i + 1;
    }
    assert s.t[..] == s.t[..s.Ns + 1];
    assert s.u[..] == s.u[..s.Ns + 1];
  }

  /** The whole fill of a one-step solver: t[0] = t0, u[0] = u0, then
      u[i] = g(t[i-1], u[i-1]) for i = 1 .. Ns; t.at(0) throws on an
      empty grid. */
  method OneStepFill(s: OdeSolver, g: Step) returns (ok: bool)
    requires s.Valid()
    modifies s.t, s.u
    ensures ok == (s.Ns >= 0)
    ensures ok ==> s.t[..] == Times(s.initialTime, s.stepSize, s.Ns)
    ensures ok ==> s.u[..] == Trajectory(g, 0, OneStep(g), s.initialTime, s.stepSize, s.initialValue, s.Ns)
  {
    ok := s.Seed();
    if ok {
      Continue(s, g, 0, OneStep(g));
    }
  }
}
