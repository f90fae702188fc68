/** The direct method of `math/DirectSolver.java`: the unknown curve is the
    polyline through start, `steps` free ordinates on an even grid, and end;
    the functional is the trapezoid rule applied to f(t, x, x') along it, and
    the Gauss-Seidel solver minimises it over the free ordinates. */
module Direct {
  import opened Common
  import opened Points
  import opened Interpolation
  import opened GoldenSection
  import opened NDimensional

  /** The grid spacing: the interval from start.x to end.x cut into n + 1 pieces. */
  function Delta(start: Pt, end: Pt, n: nat): (d: real)
    ensures d != 0.0 <==> start.x != end.x
    ensures d > 0.0 <==> start.x < end.x
  {
    (end.x - start.x) / ((n as real) + 1.0)
  }

  /** n + 1 spacings reach from start.x exactly to end.x. */
  lemma DeltaSpans(start: Pt, end: Pt, n: nat)
    ensures Abscissa(start.x, Delta(start, end, n), n + 1) == end.x
  {
  }

  /** Grid abscissa i from x0 with spacing delta. */
  function Abscissa(x0: real, delta: real, i: nat): real {
    x0 + (i as real) * delta
  }

  /** Node i of the polyline, 0 <= i <= n + 1: start.y, then the free
      ordinates v[0..n), then end.y. */
  function Node(v: seq<real>, n: nat, start: Pt, end: Pt, i: nat): real
    requires n <= |v| && i <= n + 1
  {
    if i == 0 then start.y else if i == n + 1 then end.y else v[i - 1]
  }

  /** The slope from curr to next over one grid step. */
  function ForwardDifference(curr: real, next: real, delta: real): real
    requires delta != 0.0
  {
    (next - curr) / delta
  }

  /** Following the slope for one grid step leads from curr to next. */
  lemma ForwardDifferenceSteps(curr: real, next: real, delta: real)
    requires delta != 0.0
    ensures curr + ForwardDifference(curr, next, delta) * delta == next
  {
  }

  /** The polyline's slope on the piece right of node i. */
  function Slope(v: seq<real>, n: nat, start: Pt, end: Pt, i: nat): real
    requires n <= |v| && i <= n && start.x != end.x
  {
    ForwardDifference(Node(v, n, start, end, i), Node(v, n, start, end, i + 1), Delta(start, end, n))
  }

  /** The integrand sampled at node i: f(t_i, x_i, z_i), except at the last
      node, which has no piece to its right and contributes 0. */
  function Integrand(f: seq<real> -> real, v: seq<real>, n: nat, start: Pt, end: Pt, i: nat): real
    requires n <= |v| && i <= n + 1 && start.x != end.x
  {
    if i == n + 1 then 0.0
    else f([Abscissa(start.x, Delta(start, end, n), i), Node(v, n, start, end, i), Slope(v, n, start, end, i)])
  }

  /** The integrand at every node, 0 to n + 1. */
  function Sampled(f: seq<real> -> real, v: seq<real>, n: nat, start: Pt, end: Pt): (r: seq<real>)
    requires n <= |v| && start.x != end.x
    ensures |r| == n + 2
    ensures forall i :: 0 <= i < n + 2 ==> r[i] == Integrand(f, v, n, start, end, i)
  {
    seq(n + 2, i requires 0 <= i < n + 2 => Integrand(f, v, n, start, end, i))
  }

  /** The trapezoid between two neighbouring samples. */
  function Area(curr: real, prev: real, delta: real): real {
    ((curr + prev) / 2.0) * delta
  }

  /** The first k trapezoids over the samples F, summed left to right. */
  function Trapezoids(F: seq<real>, d: real, k: nat): real
    requires k < |F|
  {
    if k == 0 then 0.0 else Trapezoids(F, d, k - 1) + Area(F[k], F[k - 1], d)
  }

  /** `functionalValue`: all n + 1 trapezoids of the node samples. */
  function Functional(f: seq<real> -> real, v: seq<real>, n: nat, start: Pt, end: Pt): real
    requires n <= |v| && start.x != end.x
  {
    Trapezoids(Sampled(f, v, n, start, end), Delta(start, end, n), n + 1)
  }

  /** The samples F[1..k], summed. */
  function Inner(F: seq<real>, k: nat): real
    requires k < |F|
  {
    if k == 0 then 0.0 else Inner(F, k - 1) + F[k]
  }

  /** Adding one trapezoid to a weighted sum times the spacing. */
  lemma AddTrapezoid(sum: real, d: real, before: real, after: real, curr: real, prev: real)
    requires sum == d * before && after == before + (curr + prev) / 2.0
    ensures sum + Area(curr, prev, d) == d * after
  {
  }

  /** The composite trapezoid rule: the first and last of the k + 1 samples
      weigh half, the ones between weigh one, all times the spacing. */
  lemma {:induction false} TrapezoidsClosed(F: seq<real>, d: real, k: nat)
    requires 1 <= k < |F|
    ensures Trapezoids(F, d, k) == d * (F[0] / 2.0 + Inner(F, k - 1) + F[k] / 2.0)
  {
    var closed := F[0] / 2.0 + Inner(F, k - 1) + F[k] / 2.0;
    if k == 1 {
      AddTrapezoid(0.0, d, 0.0, closed, F[1], F[0]);
    } else {
      TrapezoidsClosed(F, d, k - 1);
      AddTrapezoid(Trapezoids(F, d, k - 1), d, F[0] / 2.0 + Inner(F, k - 2) + F[k - 1] / 2.0, closed, F[k], F[k - 1]);
    }
  }

  /** Because the last sample is 0, the functional is the spacing times half
      the sample at start plus the samples at the free nodes. */
  lemma FunctionalClosed(f: seq<real> -> real, v: seq<real>, n: nat, start: Pt, end: Pt)
    requires n <= |v| && start.x != end.x
    ensures Functional(f, v, n, start, end) ==
      Delta(start, end, n) * (Integrand(f, v, n, start, end, 0) / 2.0 + Inner(Sampled(f, v, n, start, end), n))
  {
    var F := Sampled(f, v, n, start, end);
    TrapezoidsClosed(F, Delta(start, end, n), n + 1);
    assert F[n + 1] == 0.0;
  }

  /** A constant integrand. */
  function Constant(c: real): seq<real> -> real {
    _ => c
  }

  lemma {:induction false} InnerConstant(F: seq<real>, c: real, k: nat)
    requires k < |F| && forall i :: 0 < i <= k ==> F[i] == c
    ensures Inner(F, k) == (k as real) * c
  {
    if k > 0 {
      InnerConstant(F, c, k - 1);
    }
  }

  /** With a constant integrand c the functional falls short of the integral
      c * (end.x - start.x) by exactly half a trapezoid, c * delta / 2: the last
      node's sample is taken as 0 instead of c. */
  lemma ConstantFallsShort(c: real, v: seq<real>, n: nat, start: Pt, end: Pt)
    requires n <= |v| && start.x != end.x
    ensures Functional(Constant(c), v, n, start, end) + c * Delta(start, end, n) / 2.0 == c * (end.x - start.x)
  {
    var d, F := Delta(start, end, n), Sampled(Constant(c), v, n, start, end);
    FunctionalClosed(Constant(c), v, n, start, end);
    InnerConstant(F, c, n);
    DeltaSpans(start, end, n);
    calc {
      d * (c / 2.0 + (n as real) * c) + c * d / 2.0;
      c * (d * ((n as real) + 1.0));
      c * (end.x - start.x);
    }
  }

  /** The objective handed to the solver: the functional of the candidate
      ordinates. The solver only evaluates it at vectors of the initial
      guess's length; shorter ones (where the source would fail) map to 0. */
  function Objective(f: seq<real> -> real, n: nat, start: Pt, end: Pt): (g: seq<real> -> real)
    requires start.x != end.x
    ensures forall v :: n <= |v| ==> g(v) == Functional(f, v, n, start, end)
  {
    v => if n <= |v| then Functional(f, v, n, start, end) else 0.0
  }

  /** The free nodes of a solution: ordinate i at grid abscissa i + 1. */
  function Interior(start: Pt, end: Pt, n: nat, solution: seq<real>): (r: seq<Pt>)
    ensures |r| == |solution|
  {
    seq(|solution|, i requires 0 <= i < |solution| => Pt(Abscissa(start.x, Delta(start, end, n), i + 1), solution[i]))
  }

  /** The samples `solve` interpolates: start, the free nodes, end. */
  function Profile(start: Pt, end: Pt, n: nat, solution: seq<real>): (r: seq<Pt>)
    ensures |r| == |solution| + 2
  {
    [start] + Interior(start, end, n, solution) + [end]
  }

  /** The interpolated samples are the polyline the functional was computed
      on: sample i is (t_i, x_i) for every node i, the last one included,
      since n + 1 spacings reach end.x exactly. */
  lemma ProfileNodes(start: Pt, end: Pt, n: nat, solution: seq<real>)
    requires |solution| == n
    ensures forall i :: 0 <= i <= n + 1 ==>
      Profile(start, end, n, solution)[i] == Pt(Abscissa(start.x, Delta(start, end, n), i), Node(solution, n, start, end, i))
  {
    var d, p := Delta(start, end, n), Profile(start, end, n, solution);
    DeltaSpans(start, end, n);
    forall i | 0 <= i <= n + 1
      ensures p[i] == Pt(Abscissa(start.x, d, i), Node(solution, n, start, end, i))
    {
      if 0 < i <= n {
        assert p[i] == Interior(start, end, n, solution)[i - 1];
      }
    }
  }

  /** One more ordinate adds one more free node. */
  lemma InteriorAppend(start: Pt, end: Pt, n: nat, solution: seq<real>, i: nat)
    requires i < |solution|
    ensures Interior(start, end, n, solution[..i + 1]) ==
      Interior(start, end, n, solution[..i]) + [Pt(Abscissa(start.x, Delta(start, end, n), i + 1), solution[i])]
  {
  }

  lemma AbscissaIncreases(x0: real, delta: real, i: nat, j: nat)
    requires delta > 0.0 && i < j
    ensures Abscissa(x0, delta, i) < Abscissa(x0, delta, j)
  {
    assert (j as real) * delta == (i as real) * delta + ((j - i) as real) * delta;
  }

  /** From left to right the profile is strictly increasing in x. */
  lemma ProfileIncreasing(start: Pt, end: Pt, n: nat, solution: seq<real>)
    requires |solution| == n && start.x < end.x
    ensures StrictlyIncreasing(Profile(start, end, n, solution))
    ensures SortByX(Profile(start, end, n, solution)) == Profile(start, end, n, solution)
  {
    var d, p := Delta(start, end, n), Profile(start, end, n, solution);
    ProfileNodes(start, end, n, solution);
    forall i, j | 0 <= i < j < |p|
      ensures p[i].x < p[j].x
    {
      AbscissaIncreases(start.x, d, i, j);
    }
    SortOfSorted(p);
  }

  /** `DirectSolver`: the number of free ordinates, fixed at construction. */
  class DirectSolver {
    const steps: nat

    constructor (steps: nat)
      ensures this.steps == steps
    {
      this.steps := steps;
    }

    /** `functionalValue`: walks the nodes once, carrying the previous sample. */
    method FunctionalValue(f: seq<real> -> real, values: seq<real>, start: PointDouble, end: PointDouble) returns (res: real)
      requires steps <= |values| && start.x != end.x
      ensures res == Functional(f, values, steps, start.Value(), end.Value())
    {
      var n, s, e := steps, start.Value(), end.Value();
      res := 0.0;
      var delta := Delta(s, e, n);
      var currX, nextX, currT, currZ, currF, prevF := s.y, 0.0, s.x, 0.0, 0.0, 0.0;
      ghost var samples := Sampled(f, values, n, s, e);
      var i := 0;
      while i <= n + 1
        invariant 0 <= i <= n + 2
        invariant 0 < i ==> prevF == samples[i - 1]
        invariant res == if i == 0 then 0.0 else Trapezoids(samples, delta, i - 1)
      {
        if i == 0 {
          currX := s.y;
        } else if i == n + 1 {
          currX := e.y;
        } else {
          currX := values[i - 1];
        }
        if i == n + 1 || i == n {
          nextX := e.y;
        } else {
          nextX := values[i];
        }
        currT := Abscissa(s.x, delta, i);
        if i != n + 1 {
          currZ := ForwardDifference(currX, nextX, delta);
        }
        if i != n + 1 {
          currF := f([currT, currX, currZ]);
        } else {
          currF := 0.0;
        }
        assert currF == samples[i];
        if i != 0 {
          assert Trapezoids(samples, delta, i) == Trapezoids(samples, delta, i - 1) + Area(currF, prevF, delta);
          res := res + Area(currF, prevF, delta);
        }
        prevF := currF;
        i := i + 1;
      }
    }

    /** `solve`: minimises the functional over the free ordinates with
        Gauss-Seidel from the given first guess, then interpolates the
        polyline through start, the solution and end. Also returns, as
        ghost, the Gauss-Seidel run: its sweep starts and what each sweep
        did. */
    method Solve(f: seq<real> -> real, start: PointDouble, end: PointDouble, initial: seq<real>, cfg: GoldenConfig, fuel: nat)
      returns (r: Result<seq<LinearInterpolator>>, ghost solution: seq<real>,
               ghost trace: seq<seq<real>>, ghost logs: seq<SweepLog>)
      requires |initial| == steps && start.x != end.x
      ensures r.Err? ==> r.error == OutOfFuel
      ensures r.Ok? ==>
        SweepRecord(Objective(f, steps, start.Value(), end.Value()), cfg, fuel, initial, trace, logs, solution)
      ensures r.Ok? ==> |solution| == steps && |r.value| == 1 && fresh(r.value[0])
      ensures r.Ok? ==> r.value[0].points == SortByX(Profile(start.Value(), end.Value(), steps, solution))
      ensures r.Ok? && start.x < end.x ==> r.value[0].points == Profile(start.Value(), end.Value(), steps, solution)
    {
      var s, e := start.Value(), end.Value();
      var solver := new SolverND(Objective(f, steps, s, e), GaussSeidel);
      var result;
      ghost var run;
      result, run := solver.Solve(initial, cfg, fuel);
      if result.Err? {
        return Err(result.error), [], [], [];
      }
      trace, logs := run.trace, run.logs;
      solution := result.value;
      assert SweepRecord(Objective(f, steps, s, e), cfg, fuel, initial, trace, logs, solution);
      var interp := Interpolate(start, end, result.value);
      r := Ok([interp]);
      assert start.Value() == s && end.Value() == e;
    }

    /** The single interpolator of `solve`'s answer. */
    method Interpolate(start: PointDouble, end: PointDouble, result: seq<real>) returns (interp: LinearInterpolator)
      ensures fresh(interp)
      ensures interp.points == SortByX(Profile(start.Value(), end.Value(), steps, result))
      ensures |result| == steps && start.x < end.x ==> interp.points == Profile(start.Value(), end.Value(), steps, result)
    {
      var pts := InterpolationPoints(start, end, result);
      interp := new LinearInterpolator(pts);
      if |result| == steps && start.x < end.x {
        ProfileIncreasing(start.Value(), end.Value(), steps, result);
      }
    }

    /** The interpolation points: start itself, a new point per ordinate,
        end itself. */
    method InterpolationPoints(start: PointDouble, end: PointDouble, result: seq<real>) returns (pts: seq<PointDouble>)
      ensures Values(pts) == Profile(start.Value(), end.Value(), steps, result)
    {
      var s, e := start.Value(), end.Value();
      var delta := Delta(s, e, steps);
      pts := [start];
      for i := 0 to |result|
        invariant Values(pts) == [s] + Interior(s, e, steps, result[..i])
      {
        var p := new PointDouble(Abscissa(s.x, delta, i + 1), result[i]);
        ValuesAppend(pts, p);
        InteriorAppend(s, e, steps, result, i);
        pts := pts + [p];
      }
      assert result[..|result|] == result;
      ValuesAppend(pts, end);
      pts := pts + [end];
    }
  }
}
