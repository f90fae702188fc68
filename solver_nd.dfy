/** The n-dimensional minimisers: the trace-keeping base class
    `math/SolverND.java` with its finite-difference partial derivatives and
    gradient, and its two strategies, coordinate descent
    (`math/GaussSeidelSolver.java`) and conjugate gradients
    (`math/ChainGradientSolver.java`), both built on the list form of
    `findMinOnAxis`. */
module NDimensional {
  import opened Common
  import opened Trace
  import opened GoldenSection
  import opened LineSearch

  /** Both strategies report their log one entry per batch. */
  const ND_BATCH_SIZE: nat := 1

  /** Gauss-Seidel sweeps stop once the sweep counter exceeds this. */
  const GS_I_MAX: nat := 1024

  /** The unit length of the coordinate axes Gauss-Seidel searches along. */
  const AXIS_SCALE: real := 1.0

  /** Conjugate-gradient iterations stop when the counter reaches 0xfff. */
  const CG_I_MAX: nat := 4095

  /** The factor applied to the gradient in a descent direction. */
  const DESC_RATE: real := 1.0

  // ----- Partial derivatives -----

  /** The vector `dfdk` evaluates f at to step along coordinate `index`: the
      loop that copies the point adds point[index] + EPSILON just before
      point[index] instead of in its place, so the copy is one entry longer
      and every later coordinate moves up one place. A negative index is never
      met by the loop, which then copies the point unchanged. */
  function Shifted(point: seq<real>, index: int): (r: seq<real>)
    requires index < |point|
    ensures index < 0 ==> r == point
    ensures 0 <= index ==>
      |r| == |point| + 1 && r[index] == point[index] + EPSILON &&
      r[..index] == point[..index] && r[index + 1..] == point[index..]
  {
    if index < 0 then point else point[..index] + [point[index] + EPSILON] + point[index..]
  }

  /** The copying loop of `dfdk`, entry by entry. */
  method ShiftCopy(point: seq<real>, index: int) returns (shifted: seq<real>)
    requires index < |point|
    ensures shifted == Shifted(point, index)
  {
    shifted := [];
    for i := 0 to |point|
      invariant 0 <= index < i ==> shifted == point[..index] + [point[index] + EPSILON] + point[index..i]
      invariant i <= index || index < 0 ==> shifted == point[..i]
    {
      if i == index {
        shifted := shifted + [point[i] + EPSILON];
      }
      shifted := shifted + [point[i]];
      assert point[..i + 1] == point[..i] + [point[i]];
      if 0 <= index <= i {
        assert point[index..i + 1] == point[index..i] + [point[i]];
      }
    }
    assert point[..|point|] == point;
  }

  /** `dfdk(point, index, order)`: a negative order and an index past the last
      coordinate are rejected (the order first); order 0 is f at the point,
      order k + 1 the difference quotient of the order-k values at the
      shifted vector and at the point. A negative index passes the check, and
      since its shifted vector is the point itself every derivative of order
      one or more is 0. */
  function Derivative(f: seq<real> -> real, point: seq<real>, index: int, order: int): (r: Result<real>)
    decreases order
    ensures r.Err? <==> order < 0 || index >= |point|
    ensures order < 0 ==> r == Err(NegativeOrder)
    ensures 0 <= order && index >= |point| ==> r == Err(MissingDimension)
    ensures index < 0 && order > 0 ==> r == Ok(0.0)
  {
    if order < 0 then Err(NegativeOrder)
    else if index >= |point| then Err(MissingDimension)
    else if order == 0 then Ok(f(point))
    else Ok((Derivative(f, Shifted(point, index), index, order - 1).value
             - Derivative(f, point, index, order - 1).value) / EPSILON)
  }

  /** `gradient(point)`: entry i is the first-order `dfdk` along i. */
  function GradientOf(f: seq<real> -> real, point: seq<real>): (r: seq<real>)
    ensures |r| == |point|
  {
    seq(|point|, i requires 0 <= i < |point| => Derivative(f, point, i, 1).value)
  }

  /** Entry i of the gradient is the forward difference of f between the
      shifted vector for i and the point. */
  lemma GradientIsForwardDifference(f: seq<real> -> real, point: seq<real>)
    ensures forall i :: 0 <= i < |point| ==> GradientOf(f, point)[i] == (f(Shifted(point, i)) - f(point)) / EPSILON
  {
    forall i | 0 <= i < |point|
      ensures GradientOf(f, point)[i] == (f(Shifted(point, i)) - f(point)) / EPSILON
    {
      assert Derivative(f, point, i, 1) == Ok((f(Shifted(point, i)) - f(point)) / EPSILON);
    }
  }

  /** Where f depends only on the coordinates up to `index` and is affine in
      coordinate `index`, the inserted entry lands where f reads it: the
      first derivative is the slope a and every higher one is 0. */
  lemma {:induction false} DerivativeOfAffineInIndex(f: seq<real> -> real, g: seq<real> -> real, a: real,
                                                     point: seq<real>, index: nat, order: nat)
    requires index < |point| && order >= 1
    requires forall v: seq<real> :: index < |v| ==> f(v) == a * v[index] + g(v[..index])
    ensures Derivative(f, point, index, order) == Ok(if order == 1 then a else 0.0)
    decreases order
  {
    if order == 1 {
      SlopeOfAffineInIndex(f, g, a, point, index);
    } else {
      var d := if order - 1 == 1 then a else 0.0;
      DerivativeOfAffineInIndex(f, g, a, Shifted(point, index), index, order - 1);
      DerivativeOfAffineInIndex(f, g, a, point, index, order - 1);
      assert Derivative(f, point, index, order) == Ok((d - d) / EPSILON);
    }
  }

  /** The first-order case: the inserted entry raises f by a EPSILON. */
  lemma SlopeOfAffineInIndex(f: seq<real> -> real, g: seq<real> -> real, a: real, point: seq<real>, index: nat)
    requires index < |point|
    requires forall v: seq<real> :: index < |v| ==> f(v) == a * v[index] + g(v[..index])
    ensures Derivative(f, point, index, 1) == Ok(a)
  {
    var s := Shifted(point, index);
    assert f(s) - f(point) == a * EPSILON by {
      assert f(s) == a * s[index] + g(s[..index]);
      assert f(point) == a * point[index] + g(point[..index]);
    }
    assert Derivative(f, point, index, 1) == Ok((f(s) - f(point)) / EPSILON);
  }

  /** Because the shifted vector is one entry longer, coordinates after the
      index are misread: for f(v) = v[1], which does not depend on v[0] at
      all, the derivative along coordinate 0 at (0, 1) comes out as -1000,
      since f reads the old v[0] where v[1] was. */
  lemma ShiftMisplacesLaterCoordinates()
    ensures Derivative(v => if |v| > 1 then v[1] else 0.0, [0.0, 1.0], 0, 1) == Ok(-1000.0)
  {
    var f := v => if |v| > 1 then v[1] else 0.0;
    var s := Shifted([0.0, 1.0], 0);
    assert s == [EPSILON, 0.0, 1.0];
    assert f(s) == 0.0 && f([0.0, 1.0]) == 1.0;
  }

  // ----- Conjugate-gradient helpers -----

  /** The stream sum of squares with its `orElse(1.0)`: an empty vector counts as 1. */
  function SquaresOr1(v: seq<real>): (r: real)
    ensures v == [] ==> r == 1.0
    ensures v != [] ==> r == SumSquares(v)
  {
    if v == [] then 1.0 else SumSquares(v)
  }

  /** The Fletcher-Reeves ratio |grad|^2 / |prevGrad|^2. A zero denominator
      makes a NaN or an infinity in Java. */
  function Beta(grad: seq<real>, prevGrad: seq<real>): (r: Num)
    ensures r.NotFinite? <==> prevGrad != [] && SumSquares(prevGrad) == 0.0
    ensures r.Finite? ==> r.value >= 0.0 && r.value * SquaresOr1(prevGrad) == SquaresOr1(grad)
    ensures r.Finite? && grad == prevGrad ==> r.value == 1.0
  {
    var pb := SquaresOr1(prevGrad);
    if pb == 0.0 then NotFinite
    else
      Quotient(SquaresOr1(grad), pb);
      Finite(SquaresOr1(grad) / pb)
  }

  /** Dividing by a non-zero y: multiplying back by y restores x, a
      non-negative x over a positive y stays non-negative, and y over itself is 1. */
  lemma Quotient(x: real, y: real)
    requires y != 0.0
    ensures (x / y) * y == x
    ensures x >= 0.0 && y > 0.0 ==> x / y >= 0.0
    ensures x == y ==> x / y == 1.0
  {
  }

  /** The first direction: steepest descent, -DESC_RATE grad. */
  function Steepest(grad: seq<real>): (r: seq<real>)
    ensures |r| == |grad|
    ensures forall j :: 0 <= j < |grad| ==> r[j] == -grad[j]
  {
    seq(|grad|, j requires 0 <= j < |grad| => -DESC_RATE * grad[j])
  }

  /** The inner product of two vectors of the same length. */
  function Dot(u: seq<real>, v: seq<real>): real
    requires |u| == |v|
  {
    if u == [] then 0.0 else Dot(u[..|u| - 1], v[..|v| - 1]) + u[|u| - 1] * v[|v| - 1]
  }

  /** The first direction is a descent direction: its slope against the
      gradient is minus the squared gradient, negative unless the gradient
      vanishes. */
  lemma {:induction false} SteepestDescends(grad: seq<real>)
    ensures Dot(Steepest(grad), grad) == -SumSquares(grad)
  {
    if grad != [] {
      var n := |grad| - 1;
      assert Steepest(grad)[..n] == Steepest(grad[..n]);
      SteepestDescends(grad[..n]);
    }
  }

  /** Every later direction: -DESC_RATE grad + beta prevS. */
  function Conjugate(grad: seq<real>, prevS: seq<real>, beta: real): (r: seq<real>)
    requires |prevS| == |grad|
    ensures |r| == |grad|
    ensures beta == 0.0 ==> r == Steepest(grad)
  {
    seq(|grad|, j requires 0 <= j < |grad| => -grad[j] * DESC_RATE + prevS[j] * beta)
  }

  /** One conjugate-gradient log line: the iteration number, where the line
      search started and ended, the gradient at the start and beta. */
  datatype Step = Step(index: nat, start: seq<real>, end: seq<real>, gradient: seq<real>, beta: Num)

  /** The two points each log line is accompanied by, in order. */
  function Endpoints(steps: seq<Step>): (r: seq<seq<real>>)
    ensures |r| == 2 * |steps|
  {
    if steps == [] then [] else Endpoints(steps[..|steps| - 1]) + [steps[|steps| - 1].start, steps[|steps| - 1].end]
  }

  /** Points 2k and 2k + 1 are where iteration k's line search started and ended. */
  lemma {:induction false} EndpointsEach(steps: seq<Step>)
    ensures forall k :: 0 <= k < |steps| ==>
      Endpoints(steps)[2 * k] == steps[k].start && Endpoints(steps)[2 * k + 1] == steps[k].end
  {
    if steps != [] {
      var n := |steps| - 1;
      EndpointsEach(steps[..n]);
      assert forall k :: 0 <= k < n ==> steps[..n][k] == steps[k];
    }
  }

  /** Iteration k of a conjugate-gradient run from `data`: numbered k, it
      starts where iteration k - 1 ended (at `data` for the first), its
      gradient is the gradient there, and beta compares it with the previous
      gradient (the gradient at `data` for the first, so that beta is 1). */
  ghost predicate Linked(f: seq<real> -> real, data: seq<real>, steps: seq<Step>, k: nat)
    requires k < |steps|
  {
    if k == 0 then Links(f, data, GradientOf(f, data), steps[0], 0)
    else Links(f, steps[k - 1].end, steps[k - 1].gradient, steps[k], k)
  }

  /** The log line `step` of iteration k, started at `from` after an
      iteration whose gradient was prevGrad. */
  ghost predicate Links(f: seq<real> -> real, from: seq<real>, prevGrad: seq<real>, step: Step, k: nat)
  {
    step.index == k && step.start == from &&
    step.gradient == GradientOf(f, from) && step.beta == Beta(step.gradient, prevGrad)
  }

  /** Iteration k's line-search direction: steepest descent for the first;
      afterwards the conjugate of the gradient with the previous direction
      AS THE PREVIOUS LINE SEARCH LEFT IT, halved `halvings[k - 1]` times in
      place, beta being finite. */
  ghost predicate Directed(steps: seq<Step>, directions: seq<seq<real>>, halvings: seq<nat>, k: nat)
    requires k < |directions| <= |steps| && |halvings| == |directions|
  {
    if k == 0 then directions[0] == Steepest(steps[0].gradient)
    else Follows(directions[k], HalvedAll(directions[k - 1], halvings[k - 1]), steps[k])
  }

  /** `direction` is the conjugate of the step's gradient with prevS, beta being finite. */
  ghost predicate Follows(direction: seq<real>, prevS: seq<real>, step: Step)
  {
    step.beta.Finite? && |prevS| == |step.gradient| &&
    direction == Conjugate(step.gradient, prevS, step.beta.value)
  }

  /** The line search moved more than EPSILON (compared squared). */
  ghost predicate Moved(step: Step)
  {
    Apart(step.end, step.start)
  }

  /** Two points of the same size more than EPSILON apart (compared squared). */
  ghost predicate Apart(u: seq<real>, v: seq<real>)
  {
    |u| == |v| && DistanceSquared(u, v) > EPSILON * EPSILON
  }

  /** The state at the head of each conjugate-gradient iteration: the point,
      the gradient and the direction array as left by the iterations so far
      (the start point and its gradient before the first), every one of
      which is linked and directed. */
  ghost predicate Ready(f: seq<real> -> real, data: seq<real>, steps: seq<Step>, directions: seq<seq<real>>,
                        halvings: seq<nat>, curr: seq<real>, grad: seq<real>, s: seq<real>)
  {
    |directions| == |halvings| == |steps| && |curr| == |data| && |grad| == |data| && |s| == |data| &&
    (steps == [] ==> curr == data && grad == GradientOf(f, data)) &&
    (steps != [] ==>
      curr == steps[|steps| - 1].end && grad == steps[|steps| - 1].gradient &&
      s == HalvedAll(directions[|steps| - 1], halvings[|steps| - 1])) &&
    (forall k :: 0 <= k < |steps| ==> Linked(f, data, steps, k)) &&
    (forall k :: 0 <= k < |steps| ==> Directed(steps, directions, halvings, k))
  }

  /** A finished conjugate-gradient run: n iterations, 1 <= n <= 0xfff, each
      linked to the one before; all but the last moved more than EPSILON and
      the last did not unless the counter ran out; a closing log line repeats
      the last iteration under the number n; the result is where the last
      line search ended. */
  ghost predicate ChainRecord(f: seq<real> -> real, data: seq<real>, steps: seq<Step>, result: seq<real>)
  {
    var n := |steps| - 1;
    1 <= n <= CG_I_MAX &&
    (forall k :: 0 <= k < n ==> Linked(f, data, steps, k)) &&
    (forall k :: 0 <= k < n - 1 ==> Moved(steps[k])) &&
    (n < CG_I_MAX ==> !Moved(steps[n - 1])) &&
    steps[n] == steps[n - 1].(index := n) &&
    result == steps[n - 1].end
  }

  /** Iteration k's line search: the list `findMinOnAxis` along
      directions[k] from where the iteration started ended where it ended,
      as searches[k] and halvings[k] record. */
  ghost predicate Searches(f: seq<real> -> real, cfg: GoldenConfig, fuel: nat, steps: seq<Step>,
                           directions: seq<seq<real>>, halvings: seq<nat>, searches: seq<AxisOutcome>)
  {
    |searches| == |directions| == |halvings| <= |steps| &&
    forall k {:trigger searches[k]} :: 0 <= k < |searches| ==>
      AxisSearched(f, cfg, fuel, steps[k].start, directions[k], Ok(steps[k].end), searches[k], halvings[k])
  }

  /** Appending an iteration with its line search keeps them all recorded;
      so does appending a step without one. */
  lemma SearchesExtend(f: seq<real> -> real, cfg: GoldenConfig, fuel: nat, steps: seq<Step>,
                       directions: seq<seq<real>>, halvings: seq<nat>, searches: seq<AxisOutcome>,
                       step: Step, direction: seq<real>, rounds: nat, search: AxisOutcome)
    requires Searches(f, cfg, fuel, steps, directions, halvings, searches)
    ensures (|searches| == |steps| &&
             AxisSearched(f, cfg, fuel, step.start, direction, Ok(step.end), search, rounds)) ==>
      Searches(f, cfg, fuel, steps + [step], directions + [direction], halvings + [rounds], searches + [search])
    ensures Searches(f, cfg, fuel, steps + [step], directions, halvings, searches)
  {
    var steps' := steps + [step];
    assert forall k :: 0 <= k < |steps| ==> steps'[k] == steps[k];
  }

  // ----- Gauss-Seidel helpers -----

  /** The state at the head of each Gauss-Seidel sweep: the sweep starts so
      far, all of the start point's size, each sweep a sweep of the point
      before it, each sweep but the latest having moved more than EPSILON;
      the flag tells whether the latest one did. */
  ghost predicate Sweeping(f: seq<real> -> real, cfg: GoldenConfig, fuel: nat, data: seq<real>,
                           trace: seq<seq<real>>, logs: seq<SweepLog>, cont: bool)
  {
    1 <= |trace| && trace[0] == data && |logs| == |trace| - 1 &&
    (forall k :: 0 <= k < |trace| ==> |trace[k]| == |data|) &&
    (forall k {:trigger logs[k]} :: 0 <= k < |logs| ==> SweepOf(f, cfg, fuel, trace[k], logs[k], trace[k + 1])) &&
    (forall k :: 0 <= k < |trace| - 2 ==> Apart(trace[k + 1], trace[k])) &&
    (|trace| == 1 ==> cont) &&
    (|trace| > 1 ==> (cont <==> Apart(trace[|trace| - 1], trace[|trace| - 2])))
  }

  /** A sweep taken because the previous one moved keeps the state. */
  lemma SweepingExtend(f: seq<real> -> real, cfg: GoldenConfig, fuel: nat, data: seq<real>,
                       trace: seq<seq<real>>, logs: seq<SweepLog>, cont: bool, log: SweepLog, next: seq<real>)
    requires Sweeping(f, cfg, fuel, data, trace, logs, cont) && cont && |next| == |data|
    requires SweepOf(f, cfg, fuel, trace[|trace| - 1], log, next)
    ensures Sweeping(f, cfg, fuel, data, trace + [next], logs + [log], Apart(next, trace[|trace| - 1]))
  {
    var trace', logs', n := trace + [next], logs + [log], |trace|;
    assert forall k :: 0 <= k < n ==> trace'[k] == trace[k];
    assert trace'[n] == next && trace'[n - 1] == trace[n - 1];
    forall k | 0 <= k < |logs'|
      ensures SweepOf(f, cfg, fuel, trace'[k], logs'[k], trace'[k + 1])
    {
      if k < |logs| {
        assert logs'[k] == logs[k] && trace'[k] == trace[k] && trace'[k + 1] == trace[k + 1];
      }
    }
    forall k | 0 <= k < n - 1
      ensures Apart(trace'[k + 1], trace'[k])
    {
      assert trace'[k + 1] == trace[k + 1] && trace'[k] == trace[k];
    }
  }

  /** When the loop stops, the sweeps form a finished run. */
  lemma SweepingClose(f: seq<real> -> real, cfg: GoldenConfig, fuel: nat, data: seq<real>,
                      trace: seq<seq<real>>, logs: seq<SweepLog>, cont: bool)
    requires Sweeping(f, cfg, fuel, data, trace, logs, cont) && |trace| <= GS_I_MAX + 2
    requires !(|trace| - 1 <= GS_I_MAX && cont)
    ensures SweepRecord(f, cfg, fuel, data, trace, logs, trace[|trace| - 1])
  {
  }

  /** The coordinate axis j scaled by `scale`, in n dimensions. */
  function Unit(n: nat, j: nat, scale: real): (r: seq<real>)
    ensures |r| == n
    ensures forall k :: 0 <= k < n ==> r[k] == if k == j then scale else 0.0
  {
    seq(n, k requires 0 <= k < n => if k == j then scale else 0.0)
  }

  /** The axis has squared length scale^2 when j is one of the n
      coordinates, and is the zero vector otherwise. */
  lemma {:induction false} UnitLength(n: nat, j: nat, scale: real)
    ensures SumSquares(Unit(n, j, scale)) == if j < n then scale * scale else 0.0
  {
    if n > 0 {
      assert Unit(n, j, scale)[..n - 1] == Unit(n - 1, j, scale);
      UnitLength(n - 1, j, scale);
    }
  }

  /** u and v differ at most in coordinate j. */
  ghost predicate MovesOnly(u: seq<real>, v: seq<real>, j: nat)
  {
    |u| == |v| && forall k :: 0 <= k < |u| && k != j ==> u[k] == v[k]
  }

  /** What one Gauss-Seidel sweep did: the point after each coordinate
      search, how each search ended and how often it halved its axis. */
  datatype SweepLog = SweepLog(stages: seq<seq<real>>, outcomes: seq<AxisOutcome>, halvings: seq<nat>)

  /** The first |outcomes| searches of a sweep in n dimensions: search j
      ran the list `findMinOnAxis` along the axis j scaled by AXIS_SCALE (a
      fresh list) from stage j and answered stage j + 1, which differs from
      stage j in coordinate j at most. */
  ghost predicate AxesSearched(f: seq<real> -> real, cfg: GoldenConfig, fuel: nat, n: nat,
                               stages: seq<seq<real>>, outcomes: seq<AxisOutcome>, halvings: seq<nat>)
  {
    |stages| == |outcomes| + 1 && |halvings| == |outcomes| <= n &&
    forall j {:trigger outcomes[j]} :: 0 <= j < |outcomes| ==>
      AxisSearched(f, cfg, fuel, stages[j], Unit(n, j, AXIS_SCALE), Ok(stages[j + 1]), outcomes[j], halvings[j]) &&
      MovesOnly(stages[j], stages[j + 1], j)
  }

  /** One more search keeps the record. */
  lemma AxesSearchedExtend(f: seq<real> -> real, cfg: GoldenConfig, fuel: nat, n: nat,
                           stages: seq<seq<real>>, outcomes: seq<AxisOutcome>, halvings: seq<nat>,
                           next: seq<real>, outcome: AxisOutcome, rounds: nat)
    requires AxesSearched(f, cfg, fuel, n, stages, outcomes, halvings) && |outcomes| < n
    requires var j := |outcomes|;
      AxisSearched(f, cfg, fuel, stages[j], Unit(n, j, AXIS_SCALE), Ok(next), outcome, rounds) &&
      MovesOnly(stages[j], next, j)
    ensures AxesSearched(f, cfg, fuel, n, stages + [next], outcomes + [outcome], halvings + [rounds])
  {
    var stages', outcomes', halvings' := stages + [next], outcomes + [outcome], halvings + [rounds];
    forall j | 0 <= j < |outcomes'|
      ensures AxisSearched(f, cfg, fuel, stages'[j], Unit(n, j, AXIS_SCALE), Ok(stages'[j + 1]), outcomes'[j], halvings'[j]) &&
        MovesOnly(stages'[j], stages'[j + 1], j)
    {
      if j < |outcomes| {
        assert outcomes'[j] == outcomes[j];
        assert stages'[j] == stages[j] && stages'[j + 1] == stages[j + 1] && halvings'[j] == halvings[j];
      }
    }
  }

  /** `log` is a sweep from `from` to `to`: one search per coordinate, in
      order, from `from`, the last answering `to`. */
  ghost predicate SweepOf(f: seq<real> -> real, cfg: GoldenConfig, fuel: nat, from: seq<real>, log: SweepLog, to: seq<real>)
  {
    var n := |from|;
    AxesSearched(f, cfg, fuel, n, log.stages, log.outcomes, log.halvings) && |log.outcomes| == n &&
    log.stages[0] == from && log.stages[n] == to
  }

  /** A finished Gauss-Seidel run through the sweep starts `trace`: n sweeps,
      1 <= n <= 1025, from `data` to the result, sweep k taking trace[k] to
      trace[k + 1] as `logs[k]` records; every sweep but the last moved the
      point more than EPSILON (compared squared) and the last did not unless
      the counter ran out. */
  ghost predicate SweepRecord(f: seq<real> -> real, cfg: GoldenConfig, fuel: nat, data: seq<real>,
                              trace: seq<seq<real>>, logs: seq<SweepLog>, result: seq<real>)
  {
    var n := |trace| - 1;
    1 <= n <= GS_I_MAX + 1 && |logs| == n &&
    (forall k :: 0 <= k <= n ==> |trace[k]| == |data|) &&
    trace[0] == data && trace[n] == result &&
    (forall k {:trigger logs[k]} :: 0 <= k < n ==> SweepOf(f, cfg, fuel, trace[k], logs[k], trace[k + 1])) &&
    (forall k :: 0 <= k < n - 1 ==> Apart(trace[k + 1], trace[k])) &&
    (n <= GS_I_MAX ==> !Apart(trace[n], trace[n - 1]))
  }

  /** The loop that builds a coordinate axis entry by entry into a fresh list. */
  method UnitAxis(n: nat, j: nat, scale: real) returns (axis: array<real>)
    ensures fresh(axis)
    ensures axis[..] == Unit(n, j, scale)
  {
    axis := new real[n];
    for k := 0 to n
      invariant forall m :: 0 <= m < k ==> axis[m] == if m == j then scale else 0.0
    {
      axis[k] := if j == k then scale else 0.0;
    }
  }

  /** The summing loop both strategies end an iteration with: the squared
      distance between the new and the old point (Java takes its square root
      and compares it with EPSILON; the model compares squares). */
  method SquaredStep(curr: seq<real>, prev: seq<real>) returns (val: real)
    requires |curr| == |prev|
    ensures val == DistanceSquared(curr, prev)
  {
    val := 0.0;
    for j := 0 to |curr|
      invariant val == DistanceSquared(curr[..j], prev[..j])
    {
      assert curr[..j + 1][..j] == curr[..j] && prev[..j + 1][..j] == prev[..j];
      val := val + (curr[j] - prev[j]) * (curr[j] - prev[j]);
    }
    assert curr[..|curr|] == curr && prev[..|prev|] == prev;
  }

  /** One Gauss-Seidel sweep: a list `findMinOnAxis` along each coordinate
      axis in turn, each from where the one before ended. Returns, as ghost,
      what each search did. */
  method Sweep(f: seq<real> -> real, curr: seq<real>, cfg: GoldenConfig, fuel: nat)
    returns (r: Result<seq<real>>, ghost log: SweepLog)
    ensures r.Err? ==> r.error == OutOfFuel
    ensures r.Ok? ==> |r.value| == |curr| && SweepOf(f, cfg, fuel, curr, log, r.value)
  {
    var size := |curr|;
    var point := curr;
    ghost var stages, outcomes, halvings := [curr], [], [];
    for j := 0 to size
      invariant AxesSearched(f, cfg, fuel, size, stages, outcomes, halvings)
      invariant |point| == size && |outcomes| == j && stages[0] == curr && stages[j] == point
    {
      var axis := UnitAxis(size, j, AXIS_SCALE);
      var res, outcome, rounds := FindMinOnAxis(f, axis, point, cfg, fuel);
      if res.Err? {
        return Err(res.error), SweepLog(stages, outcomes, halvings);
      }
      assert forall k :: 0 <= k < size && k != j ==> Unit(size, j, AXIS_SCALE)[k] == 0.0;
      AxesSearchedExtend(f, cfg, fuel, size, stages, outcomes, halvings, res.value, outcome, rounds);
      point := res.value;
      stages, outcomes, halvings := stages + [point], outcomes + [outcome], halvings + [rounds];
    }
    r, log := Ok(point), SweepLog(stages, outcomes, halvings);
  }

  /** What a run did beside its log lines and points: for Gauss-Seidel the
      sweep starts and what each sweep did; for conjugate gradient each
      iteration's direction, how often its line search halved it and how
      the search ended. */
  datatype Run =
    | GaussSeidelRun(trace: seq<seq<real>>, logs: seq<SweepLog>)
    | ChainRun(directions: seq<seq<real>>, halvings: seq<nat>, searches: seq<AxisOutcome>)

  /** `SolverND` with the strategy of its subclass chosen at construction:
      the objective, the log lines and the visited points. */
  datatype Strategy = GaussSeidel | ChainGradient

  class SolverND {
    var f: seq<real> -> real
    var log: seq<Step>
    var points: seq<seq<real>>
    const strategy: Strategy

    constructor (f: seq<real> -> real, strategy: Strategy)
      ensures this.f == f && this.strategy == strategy && log == [] && points == []
    {
      this.f := f;
      this.strategy := strategy;
      log := [];
      points := [];
    }

    method SetF(g: seq<real> -> real)
      modifies this`f
      ensures f == g
    {
      f := g;
    }

    /** Clears both traces and runs the strategy. Gauss-Seidel records
        nothing; a conjugate-gradient run leaves exactly its own log lines
        and points. Also returns, as ghost, what the run did beside them. */
    method Solve(data: seq<real>, cfg: GoldenConfig, fuel: nat) returns (r: Result<seq<real>>, ghost run: Run)
      modifies this`log, this`points
      ensures r.Ok? ==> |r.value| == |data|
      ensures r.Err? ==> r.error in {OutOfFuel, NonFinite}
      ensures strategy == GaussSeidel ==> log == [] && points == [] && (r.Err? ==> r.error == OutOfFuel)
      ensures strategy == GaussSeidel && r.Ok? ==>
        run.GaussSeidelRun? && SweepRecord(f, cfg, fuel, data, run.trace, run.logs, r.value)
      ensures strategy == ChainGradient && r.Ok? ==>
        run.ChainRun? && ChainRecord(f, data, log, r.value) && points == Endpoints(log) &&
        |run.directions| == |run.halvings| == |log| - 1 &&
        (forall k :: 0 <= k < |run.directions| ==> Directed(log[..|run.directions|], run.directions, run.halvings, k)) &&
        Searches(f, cfg, fuel, log, run.directions, run.halvings, run.searches)
    {
      points := [];
      log := [];
      if strategy == GaussSeidel {
        ghost var trace, logs;
        r, trace, logs := SolveGaussSeidel(data, cfg, fuel);
        run := GaussSeidelRun(trace, logs);
      } else {
        ghost var steps, directions, halvings, searches;
        r, steps, directions, halvings, searches := SolveChainGradient(data, cfg, fuel);
        assert [] + steps == steps;
        run := ChainRun(directions, halvings, searches);
      }
    }

    method AddToLog(e: Step)
      modifies this`log
      ensures log == old(log) + [e]
    {
      log := log + [e];
    }

    method AddPoint(p: seq<real>)
      modifies this`points
      ensures points == old(points) + [p]
    {
      points := points + [p];
    }

    /** The log one batch per entry: the last batch is flushed too, so every
        entry comes back, in order, ceil(L / size) batches for L entries. */
    method GetSolutionLog() returns (batches: seq<seq<Step>>)
      ensures Flatten(batches) == log
      ensures |batches| == (|log| + ND_BATCH_SIZE - 1) / ND_BATCH_SIZE
      ensures forall k :: 0 <= k < |batches| ==> 0 < |batches[k]| <= ND_BATCH_SIZE
      ensures batches != [] ==> Full(batches[..|batches| - 1], ND_BATCH_SIZE)
    {
      var pending;
      batches, pending := SplitLog(log, ND_BATCH_SIZE);
      if pending != [] {
        BatchCount(log, ND_BATCH_SIZE, batches, pending);
        FlattenAppend(batches, pending);
        assert (batches + [pending])[..|batches|] == batches;
        batches := batches + [pending];
      }
    }

    /** `dfdk(point, index, order)`, recursing on the order and copying the
        shifted vector with a loop. */
    method Dfdk(point: seq<real>, index: int, order: int) returns (r: Result<real>)
      ensures r == Derivative(f, point, index, order)
      decreases order
    {
      if order < 0 {
        return Err(NegativeOrder);
      }
      if index >= |point| {
        return Err(MissingDimension);
      }
      if order == 0 {
        return Ok(f(point));
      }
      var shifted := ShiftCopy(point, index);
      var ahead := Dfdk(shifted, index, order - 1);
      var here := Dfdk(point, index, order - 1);
      return Ok((ahead.value - here.value) / EPSILON);
    }

    /** `gradient(point)`: the first-order `dfdk` along each coordinate. */
    method Gradient(point: seq<real>) returns (grad: seq<real>)
      ensures grad == GradientOf(f, point)
    {
      grad := [];
      for i := 0 to |point|
        invariant |grad| == i
        invariant forall k :: 0 <= k < i ==> grad[k] == Derivative(f, point, k, 1).value
      {
        var d := Dfdk(point, i, 1);
        grad := grad + [d.value];
      }
    }

    /** `GaussSeidelSolver.solveInternal`: sweeps over the coordinate axes
        while the counter has not passed 1024 and the last sweep moved the
        point more than EPSILON. Also returns the sweep starts. */
    method SolveGaussSeidel(data: seq<real>, cfg: GoldenConfig, fuel: nat)
      returns (r: Result<seq<real>>, ghost trace: seq<seq<real>>, ghost logs: seq<SweepLog>)
      ensures r.Err? ==> r.error == OutOfFuel
      ensures r.Ok? ==> SweepRecord(f, cfg, fuel, data, trace, logs, r.value)
    {
      var curr := data;
      var i: nat := 0;
      var cont := true;
      trace, logs := [data], [];
      while !(i > GS_I_MAX || !cont)
        invariant i <= GS_I_MAX + 1 && |trace| == i + 1 && trace[i] == curr
        invariant Sweeping(f, cfg, fuel, data, trace, logs, cont)
        decreases GS_I_MAX + 1 - i
      {
        var prev := curr;
        var res, log := Sweep(f, curr, cfg, fuel);
        if res.Err? {
          return Err(res.error), trace, logs;
        }
        curr := res.value;
        SweepingExtend(f, cfg, fuel, data, trace, logs, cont, log, curr);
        i := i + 1;
        trace, logs := trace + [curr], logs + [log];
        var val := SquaredStep(curr, prev);
        cont := val > EPSILON * EPSILON;
      }
      SweepingClose(f, cfg, fuel, data, trace, logs, cont);
      r := Ok(curr);
    }

    /** The log line and the two points of an iteration. */
    method Record(step: Step)
      modifies this`log, this`points
      ensures log == old(log) + [step]
      ensures points == old(points) + [step.start, step.end]
    {
      AddPoint(step.start);
      AddPoint(step.end);
      AddToLog(step);
    }

    /** The part of a conjugate-gradient iteration before its log line: the
        gradient at prev, beta against the previous gradient, the new
        direction in a fresh list, and the line search along it, which halves
        that list in place `rounds` times. Also returns the direction as built. */
    method Descend(prev: seq<real>, prevGrad: seq<real>, prevS: array<real>, first: bool, cfg: GoldenConfig, fuel: nat)
      returns (r: Result<seq<real>>, grad: seq<real>, beta: Num, s: array<real>, ghost direction: seq<real>, rounds: nat,
               ghost search: AxisOutcome)
      requires prevS.Length == |prev|
      ensures grad == GradientOf(f, prev) && beta == Beta(grad, prevGrad)
      ensures r.Err? ==> r.error == OutOfFuel || r.error == NonFinite
      ensures r.Ok? ==> |r.value| == |prev| && fresh(s) && s.Length == |prev| && s[..] == HalvedAll(direction, rounds)
      ensures r.Ok? ==> AxisSearched(f, cfg, fuel, prev, direction, r, search, rounds)
      ensures r.Ok? && first ==> direction == Steepest(grad)
      ensures r.Ok? && !first ==> beta.Finite? && direction == Conjugate(grad, prevS[..], beta.value)
    {
      grad := Gradient(prev);
      beta := Beta(grad, prevGrad);
      var ok;
      ok, s := NextDirection(grad, prevS, beta, first);
      direction := s[..];
      if !ok {
        return Err(NonFinite), grad, beta, s, direction, 0, AxisMismatch;
      }
      r, search, rounds := FindMinOnAxis(f, s, prev, cfg, fuel);
    }

    /** One pass of the do-while body up to its exit test: the line search
        of iteration `index` from prev, its log line and two points, and the
        squared distance moved. Given the iterations so far (ghost), the new
        one extends them: every iteration stays linked and directed. */
    method Iteration(index: nat, prev: seq<real>, prevGrad: seq<real>, prevS: array<real>, cfg: GoldenConfig, fuel: nat,
                     ghost data: seq<real>, ghost steps: seq<Step>, ghost directions: seq<seq<real>>, ghost halvings: seq<nat>,
                     ghost searches: seq<AxisOutcome>)
      returns (r: Result<seq<real>>, step: Step, s: array<real>, delta: real, ghost direction: seq<real>, rounds: nat,
               ghost search: AxisOutcome)
      requires index == |steps|
      requires Ready(f, data, steps, directions, halvings, prev, prevGrad, prevS[..])
      requires Searches(f, cfg, fuel, steps, directions, halvings, searches)
      modifies this`log, this`points
      ensures r.Err? ==> r.error == OutOfFuel || r.error == NonFinite
      ensures r.Ok? ==>
        step.index == index && step.start == prev && step.end == r.value && |step.start| == |step.end| &&
        log == old(log) + [step] && points == old(points) + [step.start, step.end] &&
        delta == DistanceSquared(step.end, step.start) && fresh(s) &&
        Searches(f, cfg, fuel, steps + [step], directions + [direction], halvings + [rounds], searches + [search]) &&
        Ready(f, data, steps + [step], directions + [direction], halvings + [rounds], r.value, step.gradient, s[..])
    {
      ghost var prevSeq := prevS[..];
      var grad, beta;
      r, grad, beta, s, direction, rounds, search := Descend(prev, prevGrad, prevS, index == 0, cfg, fuel);
      if r.Err? {
        return r, Step(index, prev, prev, grad, beta), s, 0.0, direction, rounds, search;
      }
      step := Step(index, prev, r.value, grad, beta);
      Record(step);
      delta := SquaredStep(r.value, prev);
      LinkedLast(f, data, steps, step, prevGrad);
      DirectedLast(steps, directions, halvings, step, direction, rounds, prevSeq);
      ExtendLinked(f, data, steps, step);
      ExtendDirected(steps, directions, halvings, step, direction, rounds);
      SearchesExtend(f, cfg, fuel, steps, directions, halvings, searches, step, direction, rounds, search);
    }

    /** `ChainGradientSolver.solveInternal`: a do-while loop of line searches
        along conjugate directions, appending a log line and two points per
        iteration, then a closing line and two points after the loop. Also
        returns the log lines appended, the directions searched and how often
        the line search halved each. */
    method SolveChainGradient(data: seq<real>, cfg: GoldenConfig, fuel: nat)
      returns (r: Result<seq<real>>, ghost steps: seq<Step>, ghost directions: seq<seq<real>>, ghost halvings: seq<nat>,
               ghost searches: seq<AxisOutcome>)
      modifies this`log, this`points
      ensures r.Err? ==> r.error == OutOfFuel || r.error == NonFinite
      ensures r.Ok? ==>
        log == old(log) + steps && points == old(points) + Endpoints(steps) &&
        ChainRecord(f, data, steps, r.value) && |r.value| == |data| &&
        |directions| == |halvings| == |steps| - 1 &&
        (forall k :: 0 <= k < |directions| ==> Directed(steps[..|directions|], directions, halvings, k)) &&
        Searches(f, cfg, fuel, steps, directions, halvings, searches)
    {
      ghost var log0, points0 := log, points;
      var n, prev, grad, beta;
      r, n, prev, grad, beta, steps, directions, halvings, searches := Iterations(data, cfg, fuel);
      if r.Err? {
        return;
      }
      var last := Step(n, prev, r.value, grad, beta);
      Record(last);
      EndpointsAppend(steps, last);
      Associative(points0, Endpoints(steps), [last.start, last.end]);
      Associative(log0, steps, [last]);
      ChainClose(f, data, steps, last);
      SearchesExtend(f, cfg, fuel, steps, directions, halvings, searches, last, [], 0, AxisMismatch);
      ghost var closed := steps + [last];
      assert closed[..|directions|] == steps;
      steps := closed;
    }

    /** The do-while loop of `solveInternal`: iterations go on while fewer
        than 0xfff have run and the last one moved more than EPSILON. Each
        direction is a fresh array that the line search halves in place, and
        the next direction is built from it as left. Returns where the last
        iteration started and ended, its gradient and beta, and how many
        iterations ran. */
    method Iterations(data: seq<real>, cfg: GoldenConfig, fuel: nat)
      returns (r: Result<seq<real>>, n: nat, prev: seq<real>, grad: seq<real>, beta: Num,
               ghost steps: seq<Step>, ghost directions: seq<seq<real>>, ghost halvings: seq<nat>,
               ghost searches: seq<AxisOutcome>)
      modifies this`log, this`points
      ensures r.Err? ==> r.error == OutOfFuel || r.error == NonFinite
      ensures r.Ok? ==>
        n == |steps| == |directions| == |halvings| && 1 <= n <= CG_I_MAX && |r.value| == |data| &&
        steps[n - 1] == Step(n - 1, prev, r.value, grad, beta) &&
        log == old(log) + steps && points == old(points) + Endpoints(steps) &&
        (forall k :: 0 <= k < n ==> Linked(f, data, steps, k)) &&
        (forall k :: 0 <= k < n ==> Directed(steps, directions, halvings, k)) &&
        (forall k :: 0 <= k < n - 1 ==> Moved(steps[k])) &&
        (n < CG_I_MAX ==> !Moved(steps[n - 1]))
      ensures r.Ok? ==> Searches(f, cfg, fuel, steps, directions, halvings, searches)
    {
      var f := this.f;
      var curr := data;
      prev := curr;
      grad := Gradient(curr);
      var s := new real[|grad|](j requires 0 <= j < |grad| => Steepest(grad)[j]);
      n := 0;
      beta := Finite(1.0);  // assigned by the first iteration before any use
      ghost var log0, points0 := log, points;
      var delta: real;
      steps, directions, halvings, searches := [], [], [], [];
      while true
        invariant n == |steps| == |directions| == |halvings| < CG_I_MAX
        invariant this.f == f
        invariant log == log0 + steps && points == points0 + Endpoints(steps)
        invariant Ready(f, data, steps, directions, halvings, curr, grad, s[..])
        invariant Searches(f, cfg, fuel, steps, directions, halvings, searches)
        invariant n > 0 ==> steps[n - 1] == Step(n - 1, prev, curr, grad, beta)
        invariant forall k :: 0 <= k < n ==> Moved(steps[k])
        decreases CG_I_MAX - n
      {
        prev := curr;
        var res, step, rounds;
        ghost var direction, search;
        res, step, s, delta, direction, rounds, search :=
          Iteration(n, prev, grad, s, cfg, fuel, data, steps, directions, halvings, searches);
        if res.Err? {
          return Err(res.error), n, prev, grad, beta, steps, directions, halvings, searches;
        }
        curr, grad, beta := res.value, step.gradient, step.beta;
        EndpointsAppend(steps, step);
        Associative(points0, Endpoints(steps), [step.start, step.end]);
        Associative(log0, steps, [step]);
        ghost var settled := steps;
        steps, directions, halvings := steps + [step], directions + [direction], halvings + [rounds];
        searches := searches + [search];
        n := n + 1;
        assert forall k :: 0 <= k < n - 1 ==> steps[k] == settled[k];
        if !(n < CG_I_MAX && delta > EPSILON * EPSILON) {
          break;
        }
      }
      r := Ok(curr);
    }
  }

  /** The direction of iteration i: steepest descent for the first, the
      conjugate with the previous direction afterwards, built into a fresh
      list; a NaN or infinite beta is reported instead. */
  method NextDirection(grad: seq<real>, prevS: array<real>, beta: Num, first: bool) returns (ok: bool, s: array<real>)
    requires prevS.Length == |grad|
    ensures fresh(s) && (ok ==> s.Length == |grad|)
    ensures first ==> ok && s[..] == Steepest(grad)
    ensures !first ==> (ok <==> beta.Finite?) && (ok ==> s[..] == Conjugate(grad, prevS[..], beta.value))
  {
    if first {
      s := new real[|grad|](j requires 0 <= j < |grad| => Steepest(grad)[j]);
      return true, s;
    }
    if beta.NotFinite? {
      s := new real[0];
      return false, s;
    }
    s := new real[|grad|];
    for j := 0 to |grad|
      invariant forall m :: 0 <= m < j ==> s[m] == -grad[m] * DESC_RATE + prevS[m] * beta.value
    {
      s[j] := -grad[j] * DESC_RATE + prevS[j] * beta.value;
    }
    assert forall m :: 0 <= m < |grad| ==> s[m] == Conjugate(grad, prevS[..], beta.value)[m];
    assert s[..] == Conjugate(grad, prevS[..], beta.value);
    ok := true;
  }

  /** The facts an iteration establishes make its step linked. */
  lemma LinkedLast(f: seq<real> -> real, data: seq<real>, steps: seq<Step>, step: Step, prevGrad: seq<real>)
    requires step.index == |steps|
    requires step.start == if steps == [] then data else steps[|steps| - 1].end
    requires prevGrad == if steps == [] then GradientOf(f, data) else steps[|steps| - 1].gradient
    requires step.gradient == GradientOf(f, step.start) && step.beta == Beta(step.gradient, prevGrad)
    ensures Linked(f, data, steps + [step], |steps|)
  {
    if steps != [] {
      assert (steps + [step])[|steps| - 1] == steps[|steps| - 1];
    }
  }

  /** ... and directed, given the previous direction as the line search left it. */
  lemma DirectedLast(steps: seq<Step>, directions: seq<seq<real>>, halvings: seq<nat>,
                     step: Step, direction: seq<real>, rounds: nat, prevS: seq<real>)
    requires |steps| == |directions| == |halvings|
    requires steps == [] ==> direction == Steepest(step.gradient)
    requires steps != [] ==>
      prevS == HalvedAll(directions[|steps| - 1], halvings[|steps| - 1]) &&
      step.beta.Finite? && |prevS| == |step.gradient| &&
      direction == Conjugate(step.gradient, prevS, step.beta.value)
    ensures Directed(steps + [step], directions + [direction], halvings + [rounds], |steps|)
  {
    if steps != [] {
      var n := |steps| - 1;
      assert (directions + [direction])[n] == directions[n] && (halvings + [rounds])[n] == halvings[n];
    }
  }

  /** Appending a linked iteration keeps every iteration linked. */
  lemma ExtendLinked(f: seq<real> -> real, data: seq<real>, steps: seq<Step>, step: Step)
    requires forall k :: 0 <= k < |steps| ==> Linked(f, data, steps, k)
    requires Linked(f, data, steps + [step], |steps|)
    ensures forall k :: 0 <= k <= |steps| ==> Linked(f, data, steps + [step], k)
  {
    assert (steps + [step])[..|steps|] == steps;
    LinkedPrefix(f, data, steps, steps + [step]);
  }

  /** Appending a directed iteration keeps every iteration directed. */
  lemma ExtendDirected(steps: seq<Step>, directions: seq<seq<real>>, halvings: seq<nat>,
                       step: Step, direction: seq<real>, rounds: nat)
    requires |steps| == |directions| == |halvings|
    requires forall k :: 0 <= k < |steps| ==> Directed(steps, directions, halvings, k)
    requires Directed(steps + [step], directions + [direction], halvings + [rounds], |steps|)
    ensures forall k :: 0 <= k <= |steps| ==> Directed(steps + [step], directions + [direction], halvings + [rounds], k)
  {
    var steps', directions', halvings' := steps + [step], directions + [direction], halvings + [rounds];
    forall k | 0 <= k < |steps|
      ensures Directed(steps', directions', halvings', k)
    {
      assert Directed(steps, directions, halvings, k);
      assert steps'[k] == steps[k] && directions'[k] == directions[k];
      if k > 0 {
        assert directions'[k - 1] == directions[k - 1] && halvings'[k - 1] == halvings[k - 1];
      }
    }
  }

  /** Closing the run: n linked iterations, all but the last of which moved,
      followed by the closing line that repeats the last under the number n,
      make a finished run. */
  lemma ChainClose(f: seq<real> -> real, data: seq<real>, steps: seq<Step>, last: Step)
    requires 1 <= |steps| <= CG_I_MAX
    requires forall k :: 0 <= k < |steps| ==> Linked(f, data, steps, k)
    requires forall k :: 0 <= k < |steps| - 1 ==> Moved(steps[k])
    requires |steps| < CG_I_MAX ==> !Moved(steps[|steps| - 1])
    requires last == steps[|steps| - 1].(index := |steps|)
    ensures ChainRecord(f, data, steps + [last], last.end)
  {
    var all := steps + [last];
    assert all[..|steps|] == steps;
    assert all[|steps| - 1] == steps[|steps| - 1] && all[|steps|] == last;
    LinkedPrefix(f, data, steps, all);
  }

  /** Linking looks only backwards, so it survives appending. */
  lemma LinkedPrefix(f: seq<real> -> real, data: seq<real>, steps: seq<Step>, all: seq<Step>)
    requires |steps| <= |all| && all[..|steps|] == steps
    requires forall k :: 0 <= k < |steps| ==> Linked(f, data, steps, k)
    ensures forall k :: 0 <= k < |steps| ==> Linked(f, data, all, k)
  {
    forall k | 0 <= k < |steps|
      ensures Linked(f, data, all, k)
    {
      assert Linked(f, data, steps, k);
      assert all[k] == steps[k];
      if k > 0 {
        assert all[k - 1] == steps[k - 1];
      }
    }
  }

  lemma EndpointsAppend(steps: seq<Step>, step: Step)
    ensures Endpoints(steps + [step]) == Endpoints(steps) + [step.start, step.end]
  {
    assert (steps + [step])[..|steps|] == steps;
  }
}
