/** The shooting method of `math/BallisticSolver.java`: the unknown initial slope
    z0 is chosen by the scalar line search so that a forward-Euler trajectory
    from the start point ends near the end point's value. Every trajectory the
    search integrates is handed back as an interpolator, in the order the
    search evaluated its objective. */
module Ballistic {
  import opened Common
  import opened Points
  import opened Interpolation
  import opened GoldenSection
  import opened LineSearch

  /** The slope the search starts from. */
  const INITIAL_Z: real := 1.0

  /** Euler steps per trajectory, giving STEPS + 1 samples. */
  const STEPS: nat := 100

  /** The integration state: time t, value x and slope z = x'. */
  datatype State = State(t: real, x: real, z: real)

  /** The argument list the integrand is applied to: (t, x, z). */
  function Arguments(s: State): seq<real> {
    [s.t, s.x, s.z]
  }

  /** The integrand at a state. */
  function Integrand(f: seq<real> -> real, s: State): real {
    f(Arguments(s))
  }

  /** A quantity after time dt at the given rate. */
  function Advance(v: real, rate: real, dt: real): real {
    v + rate * dt
  }

  /** One forward-Euler step of width dt for x' = z, z' = f(t, x, z): both
      updates use the state before the step. */
  function EulerStep(f: seq<real> -> real, s: State, dt: real): State {
    State(s.t + dt, Advance(s.x, s.z, dt), Advance(s.z, Integrand(f, s), dt))
  }

  /** The state after i steps from s0. */
  function Euler(f: seq<real> -> real, s0: State, dt: real, i: nat): State {
    if i == 0 then s0 else EulerStep(f, Euler(f, s0, dt, i - 1), dt)
  }

  /** The samples (t, x) of the first n states. */
  function Samples(f: seq<real> -> real, s0: State, dt: real, n: nat): (r: seq<Pt>)
    ensures |r| == n
  {
    if n == 0 then [] else Samples(f, s0, dt, n - 1) + [Pt(Euler(f, s0, dt, n - 1).t, Euler(f, s0, dt, n - 1).x)]
  }

  /** The arguments of the first n applications of the integrand. */
  function Applications(f: seq<real> -> real, s0: State, dt: real, n: nat): (r: seq<seq<real>>)
    ensures |r| == n
  {
    if n == 0 then [] else Applications(f, s0, dt, n - 1) + [Arguments(Euler(f, s0, dt, n - 1))]
  }

  /** The step width: the domain [start.x, end.x] cut into STEPS pieces. */
  function TimeStep(start: Pt, end: Pt): real {
    (end.x - start.x) / (STEPS as real)
  }

  /** The initial state: at the start point with slope z0. */
  function Launch(start: Pt, z0: real): State {
    State(start.x, start.y, z0)
  }

  /** The STEPS + 1 samples `findError` passes to the interpolator. */
  function Trajectory(f: seq<real> -> real, start: Pt, end: Pt, z0: real): seq<Pt> {
    Samples(f, Launch(start, z0), TimeStep(start, end), STEPS + 1)
  }

  /** The samples the interpolator for slope z0 holds: the trajectory sorted by time. */
  function Plotted(f: seq<real> -> real, start: Pt, end: Pt, z0: real): seq<Pt> {
    SortByX(Trajectory(f, start, end, z0))
  }

  /** `findError`'s answer: how far the value after STEPS steps lies below end.y. */
  function Residual(f: seq<real> -> real, start: Pt, end: Pt, z0: real): real {
    end.y - Euler(f, Launch(start, z0), TimeStep(start, end), STEPS).x
  }

  /** The objective `solve` hands to `findMin`: the residual's magnitude. */
  function Objective(f: seq<real> -> real, start: Pt, end: Pt): (g: real -> real)
    ensures forall z :: g(z) >= 0.0
  {
    z => Abs(Residual(f, start, end, z))
  }

  /** Sample i of the first n is state i's time and value. */
  lemma {:induction false} SamplesEach(f: seq<real> -> real, s0: State, dt: real, n: nat)
    ensures forall i :: 0 <= i < n ==> Samples(f, s0, dt, n)[i] == Pt(Euler(f, s0, dt, i).t, Euler(f, s0, dt, i).x)
  {
    if n > 0 {
      var init := Samples(f, s0, dt, n - 1);
      SamplesEach(f, s0, dt, n - 1);
      forall i | 0 <= i < n - 1
        ensures Samples(f, s0, dt, n)[i] == init[i]
      {
      }
    }
  }

  /** Application i of the first n is at state i. */
  lemma {:induction false} ApplicationsEach(f: seq<real> -> real, s0: State, dt: real, n: nat)
    ensures forall i :: 0 <= i < n ==> Applications(f, s0, dt, n)[i] == Arguments(Euler(f, s0, dt, i))
  {
    if n > 0 {
      var init := Applications(f, s0, dt, n - 1);
      ApplicationsEach(f, s0, dt, n - 1);
      forall i | 0 <= i < n - 1
        ensures Applications(f, s0, dt, n)[i] == init[i]
      {
      }
    }
  }

  /** The trajectory starts at the start point, and the residual is the gap
      between end.y and its last sample. */
  lemma TrajectoryEnds(f: seq<real> -> real, start: Pt, end: Pt, z0: real)
    ensures Trajectory(f, start, end, z0)[0] == start
    ensures Residual(f, start, end, z0) == end.y - Trajectory(f, start, end, z0)[STEPS].y
  {
    SamplesEach(f, Launch(start, z0), TimeStep(start, end), STEPS + 1);
  }

  /** With a non-negative step the times never decrease. */
  lemma {:induction false} TimesIncrease(f: seq<real> -> real, s0: State, dt: real, i: nat, j: nat)
    requires dt >= 0.0 && i <= j
    ensures Euler(f, s0, dt, i).t <= Euler(f, s0, dt, j).t
  {
    if i < j {
      TimesIncrease(f, s0, dt, i, j - 1);
    }
  }

  /** From left to right the trajectory is already sorted by time, so the
      interpolator keeps its samples in integration order. */
  lemma TrajectorySorted(f: seq<real> -> real, start: Pt, end: Pt, z0: real)
    requires start.x <= end.x
    ensures SortedByX(Trajectory(f, start, end, z0))
    ensures SortByX(Trajectory(f, start, end, z0)) == Trajectory(f, start, end, z0)
  {
    var s0, dt := Launch(start, z0), TimeStep(start, end);
    var traj := Trajectory(f, start, end, z0);
    SamplesEach(f, s0, dt, STEPS + 1);
    forall i, j | 0 <= i < j < |traj|
      ensures traj[i].x <= traj[j].x
    {
      TimesIncrease(f, s0, dt, i, j);
    }
    SortOfSorted(traj);
  }

  /** The integrand of a free particle: no force. */
  function Resting(args: seq<real>): real {
    0.0
  }

  /** Without force the slope stays z0 and the value grows linearly. */
  lemma {:induction false} FreeFlight(s0: State, dt: real, i: nat)
    ensures Euler(Resting, s0, dt, i) == State(s0.t + (i as real) * dt, s0.x + (i as real) * (s0.z * dt), s0.z)
  {
    if i > 0 {
      FreeFlight(s0, dt, i - 1);
      assert ((i - 1) as real) * dt + dt == (i as real) * dt;
      assert ((i - 1) as real) * (s0.z * dt) + s0.z * dt == (i as real) * (s0.z * dt);
    }
  }

  /** For a free particle the residual is linear in z0 ... */
  lemma FreeParticleResidual(start: Pt, end: Pt, z0: real)
    ensures Residual(Resting, start, end, z0) == end.y - start.y - z0 * (end.x - start.x)
  {
    var dt := TimeStep(start, end);
    FreeFlight(Launch(start, z0), dt, STEPS);
    assert (STEPS as real) * (z0 * dt) == z0 * (end.x - start.x);
  }

  /** ... and vanishes exactly at the straight line's slope. */
  lemma FreeParticleHits(start: Pt, end: Pt, z0: real)
    requires start.x != end.x
    ensures Residual(Resting, start, end, z0) == 0.0 <==> z0 == (end.y - start.y) / (end.x - start.x)
  {
    FreeParticleResidual(start, end, z0);
  }

  /** `findError`: integrates STEPS Euler steps from (start.x, start.y) with
      slope z0, builds one interpolator from the STEPS + 1 samples and returns
      end.y minus the final value. Also returns the arguments the integrand
      was applied to, in order. */
  method FindError(f: seq<real> -> real, z0: real, start: Pt, end: Pt)
    returns (err: real, interp: LinearInterpolator, applied: seq<seq<real>>)
    ensures fresh(interp)
    ensures err == Residual(f, start, end, z0)
    ensures interp.points == Plotted(f, start, end, z0)
    ensures applied == Applications(f, Launch(start, z0), TimeStep(start, end), STEPS)
  {
    var deltaT := TimeStep(start, end);
    var points, last;
    points, last, applied := Integrate(f, Launch(start, z0), deltaT);
    interp := new LinearInterpolator(points);
    err := end.y - last.x;
  }

  /** The loop of `findError`: each pass adds a new point for the current
      (t, x) and, unless it was the last sample, takes one Euler step. */
  method Integrate(f: seq<real> -> real, s0: State, deltaT: real)
    returns (points: seq<PointDouble>, last: State, applied: seq<seq<real>>)
    ensures Values(points) == Samples(f, s0, deltaT, STEPS + 1)
    ensures last == Euler(f, s0, deltaT, STEPS)
    ensures applied == Applications(f, s0, deltaT, STEPS)
  {
    var currT, currX, currZ := s0.t, s0.x, s0.z;
    points := [];
    applied := [];
    var i := 0;
    while true
      invariant 0 <= i <= STEPS
      invariant State(currT, currX, currZ) == Euler(f, s0, deltaT, i)
      invariant Values(points) == Samples(f, s0, deltaT, i)
      invariant applied == Applications(f, s0, deltaT, i)
      decreases STEPS - i
    {
      var p := new PointDouble(currT, currX);
      ValuesAppend(points, p);
      points := points + [p];
      if i == STEPS {
        break;
      }
      var args := Arguments(State(currT, currX, currZ));
      var nextX := Advance(currX, currZ, deltaT);
      var nextZ := Advance(currZ, Integrand(f, State(currT, currX, currZ)), deltaT);
      applied := applied + [args];
      currT := currT + deltaT;
      currX := nextX;
      currZ := nextZ;
      i := i + 1;
    }
    last := State(currT, currX, currZ);
  }

  /** `solve`: line search on the residual's magnitude from INITIAL_Z with
      scale 1; the list holds one trajectory per objective evaluation, in
      the order of `evals`, the arguments the search evaluated. Java drops
      the slope the search answers; the model returns it with how the search
      ended, so that a search that would not stop shows as OutOfFuel. */
  method Solve(f: seq<real> -> real, start: PointDouble, end: PointDouble, cfg: GoldenConfig, fuel: nat)
    returns (outList: seq<LinearInterpolator>, r: Result<real>, outcome: Outcome, evals: seq<real>)
    ensures Searched(Objective(f, start.Value(), end.Value()), 1.0, INITIAL_Z, cfg, fuel, r, outcome, evals)
    ensures |evals| >= 2 && evals[0] == INITIAL_Z && evals[1] == INITIAL_Z + 2.0
    ensures r.Err? <==> outcome.Exhausted?
    ensures |outList| == |evals|
    ensures forall k :: 0 <= k < |outList| ==>
      outList[k].points == SortByX(Trajectory(f, start.Value(), end.Value(), evals[k]))
  {
    var s, e := start.Value(), end.Value();
    r, outcome, evals := FindMin(Objective(f, s, e), 1.0, INITIAL_Z, cfg, fuel);
    outList := Draw(f, s, e, evals);
    assert start.Value() == s && end.Value() == e;
  }

  /** The trajectories `findError` appends to the output list, one for each
      slope the search tried, in the same order. */
  method Draw(f: seq<real> -> real, s: Pt, e: Pt, evals: seq<real>) returns (outList: seq<LinearInterpolator>)
    ensures |outList| == |evals|
    ensures forall k :: 0 <= k < |outList| ==> outList[k].points == Plotted(f, s, e, evals[k])
  {
    outList := [];
    for k := 0 to |evals|
      invariant |outList| == k
      invariant forall j :: 0 <= j < k ==> outList[j].points == Plotted(f, s, e, evals[j])
    {
      var err, interp, applied := FindError(f, evals[k], s, e);
      ghost var drawn := outList;
      outList := outList + [interp];
      forall j | 0 <= j <= k
        ensures outList[j].points == Plotted(f, s, e, evals[j])
      {
        if j < k {
          assert outList[j] == drawn[j];
        }
      }
    }
  }
}
