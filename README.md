# Numerical core of a variational-problem solver, in Dafny

The Java package `math` solves the simplest problem of the calculus of
variations: find the curve x(t) through two given points that makes the
functional integral of f(t, x, x') stationary. Two strategies are offered.

- `BallisticSolver` is a shooting method. It chooses the unknown initial
  slope with a scalar line search, so that a forward-Euler trajectory from
  the start point ends at the end point's value.
- `DirectSolver` is a direct method. It minimises the trapezoid-rule value
  of the functional over the free ordinates of a polyline, using
  coordinate descent (Gauss-Seidel).

Both rest on:

- a sorted piecewise-linear interpolator (`AbstractInterpolator`,
  `LinearInterpolator`);
- a golden-section minimiser that keeps a trace (`Solver1D`,
  `GoldenRatioSolver`);
- the line searches and finite differences of `SolverUtils`;
- two n-dimensional minimisers that keep a trace (`SolverND`,
  `GaussSeidelSolver`, `ChainGradientSolver`).

The Dafny modules follow the Java files:

| module | file | Java |
|---|---|---|
| `Common` | common.dfy | shared constants (EPSILON, Double.MAX_VALUE), faults, Result, non-finite doubles |
| `Points` | point_double.dfy | `PointDouble` as a value `Pt` and as a mutable class |
| `Interpolation` | interpolation.dfy | `AbstractInterpolator`, `LinearInterpolator` |
| `Trace` | trace.dfy | the batching loop of both `getSolutionLog` methods |
| `GoldenSection` | golden.dfy | `Solver1D`, `GoldenRatioSolver` |
| `LineSearch` | solver_utils.dfy | `SolverUtils` |
| `NDimensional` | solver_nd.dfy | `SolverND`, `GaussSeidelSolver`, `ChainGradientSolver` |
| `Ballistic` | ballistic.dfy | `BallisticSolver` |
| `Direct` | direct.dfy | `DirectSolver` |

Doubles are modelled as mathematical reals.

- Where Java would divide by zero, the model returns `Num.NotFinite`:
  the interpolation line and the Fletcher-Reeves ratio.
- Exceptions become `Result.Err` with a `Fault`.
- Each `while` loop that doubles a step carries a fuel bound. Running
  out of fuel is reported as `OutOfFuel`.
- The loops that halve the scale are proved to terminate.
- Objects whose fields the Java code updates are Dafny classes:
  - `PointDouble`;
  - the interpolator;
  - both solver base classes, with their `log` and `points` lists;
  - `DirectSolver`.
- The direction and axis lists that `findMinOnAxis` halves in place are
  `array<real>`.

Three members return, as an extra out-parameter, the arguments at which
they evaluated their objective, in evaluation order: `LineSearch.FindMin`,
`GoldenSection.GoldenRatioSolver.Solve` and `Ballistic.Solve`.
`BallisticSolver.solve` appends one trajectory per evaluation, so this
list is what its output is stated in terms of. The list version of
`findMinOnAxis` and the two n-dimensional strategies are stated instead
through ghost records of each line search: the rounds it took, the
direction it doubled in and how many moves it made (`AxisSearched`,
`SweepOf`, `Searches`).

Two behaviours of the code are modelled as written.

- `SolverND.dfdk` copies the point with `point[index] + EPSILON`
  inserted before `point[index]` rather than in its place. The vector is
  one entry longer, and every later coordinate moves up one place
  (`NDimensional.Shifted`, `NDimensional.ShiftMisplacesLaterCoordinates`).
- `Solver1D.getSolutionLog` never closes the batch that is still open
  when the log ends, so the last iteration's record is dropped
  (`GoldenSection.GoldenRatioSolver.GetSolutionLog`). `SolverND.getSolutionLog`
  flushes it.

## Model

| member | source | states |
|---|---|---|
| Common.Pow2 | src/main/java/math/SolverUtils.java:54-59 | the doubling factor `Math.pow(2, i)` is at least 1, and at least 2 for i > 0 |
| Common.SumSquares | src/main/java/math/SolverUtils.java:241-245 | the squared length the line search compares with EPSILON is never negative |
| Common.DistanceSquared | src/main/java/math/GaussSeidelSolver.java:37-42 | the squared step between two iterates is never negative |
| Common.DistanceToSelf | src/main/java/math/GaussSeidelSolver.java:37-42 | a point is at squared distance 0 from itself, so a sweep that does not move stops the loop |
| Common.SumSquaresScaled | src/main/java/math/SolverUtils.java:246-253 | scaling a vector by k scales its squared length by k squared |
| Points.Pt.LengthSquared | src/main/java/math/PointDouble.java:47-49 | the squared length x² + y² is never negative |
| Points.AddInverse | src/main/java/math/PointDouble.java:35-45 | adding b and then b scaled by -1 gives the original point back |
| Points.ShiftIsAdd | src/main/java/math/PointDouble.java:35-41 | `add(x, y)` is `add` of the point (x, y) |
| Points.ScaleLaws | src/main/java/math/PointDouble.java:35-45 | scaling distributes over addition, and two scalings compose into one by the product |
| Points.LengthSquaredOfScale | src/main/java/math/PointDouble.java:43-49 | scaling by k multiplies the squared length by k² |
| Points.PointDouble.constructor | src/main/java/math/PointDouble.java:10-13 | the new point holds the given coordinates |
| Points.PointDouble.Copy | src/main/java/math/PointDouble.java:15-17 | a fresh point with the same coordinates |
| Points.PointDouble.SetX | src/main/java/math/PointDouble.java:23-25 | x is overwritten and y is kept |
| Points.PointDouble.SetY | src/main/java/math/PointDouble.java:31-33 | y is overwritten and x is kept |
| Points.PointDouble.Add | src/main/java/math/PointDouble.java:35-37 | a fresh point holding the componentwise sum; neither operand changes |
| Points.PointDouble.Shift | src/main/java/math/PointDouble.java:39-41 | a fresh point moved by (dx, dy); the receiver does not change |
| Points.PointDouble.Scale | src/main/java/math/PointDouble.java:43-45 | a fresh point scaled by k; the receiver does not change |
| Points.PointDouble.LengthSquared | src/main/java/math/PointDouble.java:47-49 | the squared length is never negative |
| Interpolation.AtXAppend | src/main/java/math/AbstractInterpolator.java:13 | selecting the samples of one abscissa distributes over concatenation |
| Interpolation.Insert | src/main/java/math/AbstractInterpolator.java:13 | inserting into a sorted list keeps it sorted and adds exactly the new sample |
| Interpolation.InsertBehindHead | src/main/java/math/AbstractInterpolator.java:13 | a sample not after p can stay in front of the insertion into the rest |
| Interpolation.SortByX | src/main/java/math/AbstractInterpolator.java:13 | the sorted list is ordered by abscissa and is a permutation of the input |
| Interpolation.InsertKeepsOrderOfEqualKeys | src/main/java/math/AbstractInterpolator.java:13 | an inserted sample goes after every sample with the same abscissa |
| Interpolation.InsertBehindHeadAtX | src/main/java/math/AbstractInterpolator.java:13 | the inductive step of the equal-key property |
| Interpolation.InsertInFront | src/main/java/math/AbstractInterpolator.java:13 | a sample placed before all others adds at most itself to its own abscissa's group |
| Interpolation.AtXNone | src/main/java/math/AbstractInterpolator.java:13 | no sample has an abscissa that none of them carries |
| Interpolation.SortIsStable | src/main/java/math/AbstractInterpolator.java:13 | the sort is stable, as `List.sort` with a comparator is: for each abscissa, its samples keep their input order |
| Interpolation.InsertAtEnd | src/main/java/math/AbstractInterpolator.java:13 | a sample not below any other is appended at the end |
| Interpolation.SortOfSorted | src/main/java/math/AbstractInterpolator.java:13 | samples already in order are left exactly as they are |
| Interpolation.SortedInit | src/main/java/math/AbstractInterpolator.java:13 | dropping the last sample of a sorted list keeps it sorted, and the last sample is the largest |
| Interpolation.LerpIsLine | src/main/java/math/LinearInterpolator.java:71-75 | the alpha form of the interpolation is the point-slope line through the two samples |
| Interpolation.LerpAtSamples | src/main/java/math/LinearInterpolator.java:71-75 | the line passes through both of its samples |
| Interpolation.LerpBetween | src/main/java/math/LinearInterpolator.java:71-75 | between its samples the line stays between their values |
| Interpolation.EnclosingSampleIsEnd | src/main/java/math/LinearInterpolator.java:49-70 | with distinct abscissae, a sample inside a found segment is one of its two ends |
| Interpolation.Values | src/main/java/math/AbstractInterpolator.java:12 | the values of a list of points, read in order |
| Interpolation.ValuesAppend | src/main/java/math/AbstractInterpolator.java:12 | appending a point appends its value |
| Interpolation.LinearInterpolator.Valid | src/main/java/math/AbstractInterpolator.java:13 | the interpolator keeps its samples sorted by abscissa |
| Interpolation.LinearInterpolator.constructor | src/main/java/math/AbstractInterpolator.java:10-14 | the samples are copies of the input sorted stably by abscissa: sorted, a permutation of the input, input order kept for equal abscissae |
| Interpolation.LinearInterpolator.Lower | src/main/java/math/AbstractInterpolator.java:25-27 | the first sample's abscissa, which is the smallest |
| Interpolation.LinearInterpolator.Upper | src/main/java/math/AbstractInterpolator.java:29-31 | the last sample's abscissa, which is the largest and not below `Lower` |
| Interpolation.LinearInterpolator.LowerVal | src/main/java/math/LinearInterpolator.java:14-17 | 0 without samples, otherwise -MAX_VALUE, which bounds every finite sample value from below |
| Interpolation.LinearInterpolator.UpperVal | src/main/java/math/LinearInterpolator.java:20-23 | 0 without samples, otherwise MAX_VALUE, which bounds every finite sample value from above |
| Interpolation.LinearInterpolator.Evaluate | src/main/java/math/LinearInterpolator.java:26-76 | 0 without samples. With one sample, its value. Left of the range, the first segment's line; right of it, the last segment's line. Inside it, the line of an enclosing segment, which stays between that segment's values. With distinct abscissae, the value at a sample's abscissa is that sample's value. |
| Interpolation.LinearInterpolator.FindSegment | src/main/java/math/LinearInterpolator.java:49-70 | for a value strictly inside the range, the binary search ends at a segment enclosing it |
| Trace.FlattenFull | src/main/java/math/Solver1D.java:49-60 | m full batches of size n hold m n entries |
| Trace.FlattenAppend | src/main/java/math/Solver1D.java:49-60 | closing a batch appends its entries to the joined log |
| Trace.SplitLog | src/main/java/math/Solver1D.java:49-60 | the batching loop loses and reorders nothing. Every closed batch is full. The batch still open is non-empty for a non-empty log. |
| Trace.BatchCount | src/main/java/math/Solver1D.java:49-60 | a log of L > 0 entries closes (L - 1) / size batches, holding the first entries in order |
| GoldenSection.GoldenRatioSolver.constructor | src/main/java/math/Solver1D.java:14-16 | the solver holds f, and its log and points are empty |
| GoldenSection.GoldenRatioSolver.SetF | src/main/java/math/Solver1D.java:22-24 | f is replaced |
| GoldenSection.GoldenRatioSolver.Solve | src/main/java/math/Solver1D.java:32-36 | both traces are cleared and then hold exactly this run's log and points. The answer is the final bracket's midpoint with f there. The evaluated arguments are returned in order. |
| GoldenSection.GoldenRatioSolver.AddToLog | src/main/java/math/Solver1D.java:41-43 | appends one log entry |
| GoldenSection.GoldenRatioSolver.AddPoint | src/main/java/math/Solver1D.java:44-46 | appends one point |
| GoldenSection.GoldenRatioSolver.RecordIteration | src/main/java/math/GoldenRatioSolver.java:60-68 | an iteration appends its seven log lines and its two points (x1, y1), (x2, y2) |
| GoldenSection.GoldenRatioSolver.SolveInternal | src/main/java/math/GoldenRatioSolver.java:9-85 | runs max(1, lim) iterations, appending their log and points. The answer is (midpoint, f(midpoint)) of the last bracket. |
| GoldenSection.GoldenRatioSolver.Iterations | src/main/java/math/GoldenRatioSolver.java:22-82 | the first iteration, then the loop for i = 1 .. lim - 1, reach the state of the specification after max(1, lim) iterations |
| GoldenSection.GoldenRatioSolver.Begin | src/main/java/math/GoldenRatioSolver.java:22-48 | iteration 0 places and evaluates both probes, records them and compares |
| GoldenSection.GoldenRatioSolver.Iterate | src/main/java/math/GoldenRatioSolver.java:50-82 | one loop pass evaluates only the missing probe, records the iteration and compares |
| GoldenSection.GoldenRatioSolver.GetSolutionLog | src/main/java/math/Solver1D.java:49-60 | full batches of 7 in log order: (L - 1) / 7 of them for L > 0 entries, so the last batch is never returned |
| GoldenSection.SolutionLogOfRun | src/main/java/math/Solver1D.java:49-60 | after n iterations the solution log holds the records of iterations 0 .. n-2 |
| GoldenSection.BatchesAreIterations | src/main/java/math/GoldenRatioSolver.java:88-90 | each full batch of 7 is exactly one iteration's record |
| GoldenSection.Narrowing.Log | src/main/java/math/GoldenRatioSolver.java:60-66 | n iterations log 7 n entries |
| GoldenSection.Narrowing.Points | src/main/java/math/GoldenRatioSolver.java:67-68 | n iterations record 2 n points |
| GoldenSection.Narrowing.Evaluations | src/main/java/math/GoldenRatioSolver.java:22-82 | n iterations evaluate f n + 1 times: twice in the first, once in each later one |
| GoldenSection.NextFromNarrowed | src/main/java/math/GoldenRatioSolver.java:70-81 | the successor places the missing probe in the narrowed bracket |
| GoldenSection.ProbeValues | src/main/java/math/GoldenRatioSolver.java:37-81 | every logged y1 and y2 is f at its probe, including a probe that survives a comparison |
| GoldenSection.StaysInside | src/main/java/math/GoldenRatioSolver.java:9-85 | for any ratio in [0, 1], every bracket end and probe stays within [lower, upper] |
| GoldenSection.NextInside | src/main/java/math/GoldenRatioSolver.java:70-81 | one step keeps ends and probes within [lower, upper] |
| GoldenSection.MidpointInside | src/main/java/math/GoldenRatioSolver.java:84 | the answer lies in [lower, upper] |
| GoldenSection.GoldenSuccessor | src/main/java/math/GoldenRatioSolver.java:6 | with the golden ratio, one step keeps the probes at the golden positions, moves the ends inwards and shrinks the width by 1 - ratio |
| GoldenSection.GoldenNests | src/main/java/math/GoldenRatioSolver.java:6 | golden probes nest: a <= x1 <= x2 <= b |
| GoldenSection.GoldenInvariant | src/main/java/math/GoldenRatioSolver.java:50-82 | with the golden ratio, the reused probe sits exactly where a fresh one would in every iteration |
| GoldenSection.GoldenNesting | src/main/java/math/GoldenRatioSolver.java:50-82 | with the golden ratio, lower <= a <= x1 <= x2 <= b <= upper in every iteration |
| GoldenSection.GoldenStep | src/main/java/math/GoldenRatioSolver.java:70-81 | each iteration moves one end onto a probe (a onto x1 when y1 > y2, else b onto x2) and shrinks the width by 1 - ratio |
| LineSearch.Fdx | src/main/java/math/SolverUtils.java:15-23 | rejected exactly for a negative order, with the argument fault |
| LineSearch.Fdy | src/main/java/math/SolverUtils.java:29-37 | rejected exactly for a negative order, with the argument fault |
| LineSearch.Gradient | src/main/java/math/SolverUtils.java:11-13 | both entries are the one-EPSILON-step forward-difference quotients of f |
| LineSearch.FdyIsSwappedFdx | src/main/java/math/SolverUtils.java:29-37 | at every order, `fdy` is `fdx` of f with its arguments exchanged, at the mirrored point |
| LineSearch.FdxOfAffine | src/main/java/math/SolverUtils.java:15-23 | on a x + b y + c the first x-difference is a and every higher one is 0 |
| LineSearch.FdyOfAffine | src/main/java/math/SolverUtils.java:29-37 | on a x + b y + c the first y-difference is b and every higher one is 0 |
| LineSearch.GradientOfAffine | src/main/java/math/SolverUtils.java:11-13 | the gradient of a x + b y + c is (a, b) |
| LineSearch.Ahead | src/main/java/math/SolverUtils.java:54-59 | the forward probe lies on the side the scale points to |
| LineSearch.Behind | src/main/java/math/SolverUtils.java:67-75 | the backward probe lies on the other side |
| LineSearch.Rounds | src/main/java/math/SolverUtils.java:50-84 | n failed rounds evaluate f 4 n times |
| LineSearch.AllFailEach | src/main/java/math/SolverUtils.java:50-84 | every recorded round found f lower in neither direction |
| LineSearch.AllAboveEach | src/main/java/math/SolverUtils.java:84 | every halved scale before the last exceeded EPSILON |
| LineSearch.Forward | src/main/java/math/SolverUtils.java:54-65 | the forward loop moved `moves` <= fuel times, each time because f(curr) > f(next); prev, curr and next are the closed-form positions after that many moves, and the arguments it evaluated are `Doubling`. It stops with f(curr) <= f(next), or reports that the fuel ran out while f still fell. When it stops, curr lies between prev and next and f(curr) is at most both. |
| LineSearch.Backward | src/main/java/math/SolverUtils.java:67-75 | the same for the backward loop, with the test f(curr) >= f(next): when it stops, curr lies between prev and next, f(curr) <= f(prev) and f(curr) < f(next) |
| LineSearch.Double | src/main/java/math/SolverUtils.java:54-75 | whichever loop runs, it stops at a bracket whose inner point is at most both ends and lies between them, or the fuel runs out after fuel + 1 successful tests |
| LineSearch.ForwardReach | src/main/java/math/SolverUtils.java:48-58 | the forward probe after m moves is start + d 2^(m+1): the distance from the start doubles with every move |
| LineSearch.BackwardReach | src/main/java/math/SolverUtils.java:67-74 | the backward probe after m moves is start - d (2^(m+1) - 1) |
| LineSearch.HalvingsBelow | src/main/java/math/SolverUtils.java:83-84 | finitely many halvings bring any scale to EPSILON or below, so the do-while ends |
| LineSearch.Round | src/main/java/math/SolverUtils.java:51-82 | one round reports which comparison found f lower, with the arguments it evaluated |
| LineSearch.Scan | src/main/java/math/SolverUtils.java:50-84 | every round before the first descent failed in both directions, with the halved scale above EPSILON; without a descent the scale ends at EPSILON or below. The evaluated arguments are returned in order. |
| LineSearch.FindMin | src/main/java/math/SolverUtils.java:43-86 | the whole search (`Searched`): every round before the first descent failed. Without a descent, the scale fell to EPSILON and the start value comes back. After a descent, the doubling loop moved `moves` times, each because f still fell, and stopped at prev, curr, next; the answer is the golden midpoint of [min(prev, next), max(prev, next)], a bracket whose inner point is at most both ends. Running out of fuel is the only failure. The evaluated arguments are returned in Java's order. |
| LineSearch.Bracket | src/main/java/math/SolverUtils.java:60-65 | golden section on the bracket answers a point inside it |
| LineSearch.Mix | src/main/java/math/SolverUtils.java:192-208 | the mixed point has the ends' dimension |
| LineSearch.MixOnSegment | src/main/java/math/SolverUtils.java:192-208 | for a in [0, 1] every coordinate lies between the ends' coordinates |
| LineSearch.MixKeepsCommon | src/main/java/math/SolverUtils.java:192-208 | where the ends agree, so does every point of the segment |
| LineSearch.MixAtEnds | src/main/java/math/SolverUtils.java:192-208 | a = 0 gives lo and a = 1 gives hi |
| LineSearch.AxisRound | src/main/java/math/SolverUtils.java:175-213 | one round compares f(curr) with f(curr + 2 a), then with f(curr - 2 a). It reports no direction exactly when both comparisons fail, and otherwise the direction whose comparison opened the search. |
| LineSearch.AxisAllFailEach | src/main/java/math/SolverUtils.java:174-254 | every recorded round, along the axis halved j times, failed in both directions |
| LineSearch.AxisAllAboveEach | src/main/java/math/SolverUtils.java:246-254 | after each of the recorded halvings the axis was longer than EPSILON (compared squared) |
| LineSearch.AxisProbeReach | src/main/java/math/SolverUtils.java:175-223 | the probe after m moves of the list doubling loop is start + a 2^(m+1) forwards and start - a 2^(m+1) backwards: every probe lies on the line through the start along the axis |
| LineSearch.HalvedAllEntries | src/main/java/math/SolverUtils.java:246-253 | n in-place halvings halve each entry n times |
| LineSearch.QuarterLength | src/main/java/math/SolverUtils.java:246-253 | halving the axis quarters its squared length |
| LineSearch.HalvedAllLength | src/main/java/math/SolverUtils.java:246-254 | after n halvings the squared length is the first one halved 2 n times |
| LineSearch.HalveAxis | src/main/java/math/SolverUtils.java:246-249 | every entry of the caller's axis is halved in place |
| LineSearch.LengthSquared | src/main/java/math/SolverUtils.java:250-253 | the summing loop computes the squared length |
| LineSearch.HalvedMonotone | src/main/java/math/SolverUtils.java:246-254 | while positive, the halved value only shrinks |
| LineSearch.ScanAxis | src/main/java/math/SolverUtils.java:174-254 | the caller's axis ends halved once per round. Every round failed in both directions. Without a descent the axis was longer than EPSILON after every halving but the last, and not after the last. With one, the axis stayed longer than EPSILON and the round that opened is stated. |
| LineSearch.AxisStep | src/main/java/math/SolverUtils.java:175-254 | one round, then the halving and the exit test: a long axis extends the run of long axes, a short one ends it |
| LineSearch.AboveBounded | src/main/java/math/SolverUtils.java:246-254 | an axis still longer than EPSILON after n halvings has been halved fewer times than it takes to fall below, so the rounds end |
| LineSearch.ForwardOnAxis | src/main/java/math/SolverUtils.java:180-191 | the loop moved `moves` <= fuel times, each because f(curr) > f(next); the points are the closed-form positions along the axis and coordinates where the axis is 0 never change; when it stops, f(curr) is at most both neighbours |
| LineSearch.BackwardOnAxis | src/main/java/math/SolverUtils.java:215-226 | the same backwards with the test f(curr) >= f(next); when it stops, f(curr) <= f(prev) and f(curr) < f(next) |
| LineSearch.DoubleOnAxis | src/main/java/math/SolverUtils.java:180-226 | whichever loop runs, it stops at a bracket whose inner point is at most both ends, or the fuel runs out after fuel + 1 successful tests |
| LineSearch.BracketOnAxis | src/main/java/math/SolverUtils.java:192-208 | golden section over [0, 1] along the segment answers a point of the segment |
| LineSearch.Settle | src/main/java/math/SolverUtils.java:178-244 | after the round that opened, the doubling loop and golden section: the bracket, the answer on its segment, and out-of-fuel as the only failure |
| LineSearch.FindMinOnAxis | src/main/java/math/SolverUtils.java:152-256 | the whole search (`AxisSearched`): a size mismatch is rejected. Every round before the first descent failed, and the caller's axis is left halved once per round. Without a descent the axis fell to EPSILON and the start point comes back. After one, the doubling loop moved `moves` times, each because f still fell, and the answer is the golden point of the segment from prev to next, whose inner point is at most both ends. Coordinates where the axis is 0 are unchanged. |
| LineSearch.FixesHalved | src/main/java/math/SolverUtils.java:246-248 | halving the axis keeps its zero coordinates, so a point that keeps them for the halved axis keeps them for the original |
| NDimensional.Shifted | src/main/java/math/SolverND.java:82-88 | as written: point[index] + EPSILON is inserted before point[index], so the copy is one longer and later coordinates move up; a negative index copies the point unchanged |
| NDimensional.ShiftCopy | src/main/java/math/SolverND.java:82-88 | the copying loop builds that vector |
| NDimensional.Derivative | src/main/java/math/SolverND.java:72-90 | rejected exactly for a negative order (checked first) or an index past the end; a negative index gives 0 at every order >= 1 |
| NDimensional.GradientOf | src/main/java/math/SolverND.java:64-70 | one entry per coordinate |
| NDimensional.GradientIsForwardDifference | src/main/java/math/SolverND.java:64-70 | entry i is the forward difference of f between the shifted vector for i and the point |
| NDimensional.DerivativeOfAffineInIndex | src/main/java/math/SolverND.java:72-90 | where f reads only coordinates up to the index, the derivative is exact: the slope at order 1, 0 above |
| NDimensional.ShiftMisplacesLaterCoordinates | src/main/java/math/SolverND.java:82-88 | for f(v) = v[1], the derivative along coordinate 0 at (0, 1) comes out as -1000, not 0 |
| NDimensional.Beta | src/main/java/math/ChainGradientSolver.java:29-31 | non-finite exactly when the previous gradient is non-empty and zero. Otherwise it is non-negative and solves beta·|prev|² = |grad|², and it is 1 when the two gradients are equal. |
| NDimensional.SteepestDescends | src/main/java/math/ChainGradientSolver.java:32-40 | the first direction, minus the gradient, is a descent direction: its inner product with the gradient is minus the squared gradient |
| NDimensional.Conjugate | src/main/java/math/ChainGradientSolver.java:32-40 | later directions have the gradient's size and reduce to steepest descent when beta is 0 |
| NDimensional.Endpoints | src/main/java/math/ChainGradientSolver.java:43-45 | two points per log line |
| NDimensional.EndpointsEach | src/main/java/math/ChainGradientSolver.java:43-45 | points 2k and 2k + 1 are where line search k started and ended |
| NDimensional.SweepingExtend | src/main/java/math/GaussSeidelSolver.java:21-43 | a recorded sweep taken after a moving sweep keeps the loop invariant |
| NDimensional.SweepingClose | src/main/java/math/GaussSeidelSolver.java:21 | at loop exit the sweeps form a finished run |
| NDimensional.UnitLength | src/main/java/math/GaussSeidelSolver.java:28-31 | the axis built for coordinate j has squared length scale² when j is one of the n coordinates, and is the zero vector otherwise |
| NDimensional.UnitAxis | src/main/java/math/GaussSeidelSolver.java:28-31 | the loop builds that axis into a fresh list |
| NDimensional.SquaredStep | src/main/java/math/GaussSeidelSolver.java:37-42 | the summing loop computes the squared distance between the new and old points |
| NDimensional.Sweep | src/main/java/math/GaussSeidelSolver.java:27-36 | one line search per coordinate, in order, each along the unit axis of its coordinate from where the previous one ended, each recorded in full (`AxisSearched`) and moving the point in its own coordinate only |
| NDimensional.AxesSearchedExtend | src/main/java/math/GaussSeidelSolver.java:27-36 | one more recorded line search along the next axis extends the sweep's record |
| NDimensional.SolverND.constructor | src/main/java/math/SolverND.java:15-17 | the solver holds f and the strategy, and its traces are empty |
| NDimensional.SolverND.SetF | src/main/java/math/SolverND.java:23-25 | f is replaced |
| NDimensional.SolverND.Solve | src/main/java/math/SolverND.java:27-31 | the traces are cleared first. Gauss-Seidel then records nothing and its answer ends a finished run of sweeps (`SweepRecord`). A conjugate-gradient run leaves exactly its own finished record, with two points per line and every line search recorded. The answer has the data's size. |
| NDimensional.SolverND.AddToLog | src/main/java/math/SolverND.java:36-38 | appends one log line |
| NDimensional.SolverND.AddPoint | src/main/java/math/SolverND.java:39-41 | appends one point |
| NDimensional.SolverND.GetSolutionLog | src/main/java/math/SolverND.java:44-58 | every entry comes back in order, in ceil(L / size) non-empty batches; all but the last are full |
| NDimensional.SolverND.Dfdk | src/main/java/math/SolverND.java:72-94 | the recursive method computes `Derivative` |
| NDimensional.SolverND.Gradient | src/main/java/math/SolverND.java:64-70 | the loop computes `GradientOf` |
| NDimensional.SolverND.SolveGaussSeidel | src/main/java/math/GaussSeidelSolver.java:10-46 | at most 1025 sweeps from the data, each taking one trace point to the next through its recorded line searches; every sweep but the last moved more than EPSILON, and the last did not unless the counter ran out |
| NDimensional.SolverND.Record | src/main/java/math/ChainGradientSolver.java:43-45 | one log line and its two points are appended |
| NDimensional.SolverND.Descend | src/main/java/math/ChainGradientSolver.java:29-41 | the gradient, beta and the new direction: steepest first, conjugate afterwards with a finite beta. The line search along that direction is recorded in full (`AxisSearched`) and leaves the fresh direction list halved. |
| NDimensional.SolverND.Iteration | src/main/java/math/ChainGradientSolver.java:24-52 | one pass appends its line and points, measures the squared step, keeps every iteration linked and directed, and records its line search: the step ends where the search along its direction answered |
| NDimensional.SolverND.SolveChainGradient | src/main/java/math/ChainGradientSolver.java:13-58 | at most 0xfff linked iterations; all but the last moved more than EPSILON. A closing line repeats the last one. Each direction is the conjugate of the previous one as the line search left it, and each iteration ends where the search along its direction answered. |
| NDimensional.SolverND.Iterations | src/main/java/math/ChainGradientSolver.java:24-53 | the do-while runs 1 .. 0xfff iterations. Each is linked, directed and ends where its line search answered. All but the last moved, and the last did not unless the counter ran out. |
| NDimensional.NextDirection | src/main/java/math/ChainGradientSolver.java:32-40 | steepest descent first; afterwards the conjugate direction exactly when beta is finite |
| NDimensional.LinkedLast | src/main/java/math/ChainGradientSolver.java:24-52 | an iteration that starts where the previous one ended, with its gradient and beta, is linked |
| NDimensional.DirectedLast | src/main/java/math/ChainGradientSolver.java:32-40 | and it is directed, given the previous direction as halved in place |
| NDimensional.ExtendLinked | src/main/java/math/ChainGradientSolver.java:24-53 | appending a linked iteration keeps all iterations linked |
| NDimensional.ExtendDirected | src/main/java/math/ChainGradientSolver.java:24-53 | appending a directed iteration keeps all iterations directed |
| NDimensional.ChainClose | src/main/java/math/ChainGradientSolver.java:53-56 | the closing line after the loop makes a finished run |
| NDimensional.LinkedPrefix | src/main/java/math/ChainGradientSolver.java:24-53 | linking survives appending later iterations |
| NDimensional.EndpointsAppend | src/main/java/math/ChainGradientSolver.java:43-45 | a new line appends its start and end points |
| NDimensional.SearchesExtend | src/main/java/math/ChainGradientSolver.java:24-56 | appending an iteration with its recorded line search keeps every search recorded; so does the closing line, which has none |
| Ballistic.Samples | src/main/java/math/BallisticSolver.java:28-41 | n samples for the first n states |
| Ballistic.Applications | src/main/java/math/BallisticSolver.java:36 | n integrand arguments for the first n steps |
| Ballistic.Objective | src/main/java/math/BallisticSolver.java:15 | the objective handed to `findMin` is never negative |
| Ballistic.SamplesEach | src/main/java/math/BallisticSolver.java:29 | sample i is state i's (t, x) |
| Ballistic.ApplicationsEach | src/main/java/math/BallisticSolver.java:36 | application i is at state i |
| Ballistic.TrajectoryEnds | src/main/java/math/BallisticSolver.java:20-44 | the trajectory starts at the start point, and the residual is end.y minus its last sample |
| Ballistic.TimesIncrease | src/main/java/math/BallisticSolver.java:38 | with a non-negative step, times never decrease |
| Ballistic.TrajectorySorted | src/main/java/math/BallisticSolver.java:42 | for start.x <= end.x the trajectory is already sorted, so the interpolator keeps integration order |
| Ballistic.FreeFlight | src/main/java/math/BallisticSolver.java:35-40 | with no force the slope stays z0 and the value grows linearly |
| Ballistic.FreeParticleResidual | src/main/java/math/BallisticSolver.java:44 | with no force the residual is end.y - start.y - z0 (end.x - start.x) |
| Ballistic.FreeParticleHits | src/main/java/math/BallisticSolver.java:44 | with no force the residual vanishes exactly at the straight line's slope |
| Ballistic.FindError | src/main/java/math/BallisticSolver.java:19-45 | the residual after STEPS Euler steps, a fresh interpolator over the sorted trajectory, and the integrand's arguments in order |
| Ballistic.Integrate | src/main/java/math/BallisticSolver.java:28-41 | the loop collects STEPS + 1 samples, ends at the state after STEPS steps, and applies the integrand at each step |
| Ballistic.Solve | src/main/java/math/BallisticSolver.java:12-17 | the whole search for the slope (`Searched`) on the absolute residual at the end point, from INITIAL_Z with scale 1; the search's answer and its outcome are returned, with out-of-fuel as the only failure. The output holds one trajectory per objective evaluation, in evaluation order. |
| Ballistic.Draw | src/main/java/math/BallisticSolver.java:42 | one interpolator per slope tried, in the same order |
| Direct.Delta | src/main/java/math/DirectSolver.java:42 | the spacing is non-zero exactly when start.x != end.x, and positive exactly when start.x < end.x |
| Direct.DeltaSpans | src/main/java/math/DirectSolver.java:20 | n + 1 spacings reach from start.x exactly to end.x |
| Direct.ForwardDifferenceSteps | src/main/java/math/DirectSolver.java:74 | following the slope for one step leads from one node to the next |
| Direct.TrapezoidsClosed | src/main/java/math/DirectSolver.java:84-88 | the summed trapezoids are the composite trapezoid rule: end samples weigh half, inner samples weigh one |
| Direct.FunctionalClosed | src/main/java/math/DirectSolver.java:39-96 | since the last node's sample is 0, the functional is delta times (half the first sample plus the inner samples) |
| Direct.InnerConstant | src/main/java/math/DirectSolver.java:84-88 | k equal inner samples sum to k c |
| Direct.ConstantFallsShort | src/main/java/math/DirectSolver.java:80-82 | for a constant integrand c, the functional falls short of c (end.x - start.x) by exactly c delta / 2 |
| Direct.Interior | src/main/java/math/DirectSolver.java:31-33 | one free node per ordinate |
| Direct.Profile | src/main/java/math/DirectSolver.java:29-34 | start, the free nodes, end |
| Direct.ProfileNodes | src/main/java/math/DirectSolver.java:29-34 | the interpolated samples are the polyline the functional was computed on, node for node, the last one included |
| Direct.InteriorAppend | src/main/java/math/DirectSolver.java:31-33 | one more ordinate adds one more node |
| Direct.ProfileIncreasing | src/main/java/math/DirectSolver.java:29-36 | for start.x < end.x the profile is strictly increasing, so the interpolator keeps it as is |
| Direct.DirectSolver.constructor | src/main/java/math/DirectSolver.java:12-14 | the solver holds the number of free ordinates |
| Direct.DirectSolver.FunctionalValue | src/main/java/math/DirectSolver.java:39-96 | the loop computes the trapezoid functional of the polyline |
| Direct.DirectSolver.Solve | src/main/java/math/DirectSolver.java:17-37 | the only failure is running out of fuel. On success the solution is the end of a finished Gauss-Seidel run from the initial guess on the trapezoid functional (`SweepRecord`), and the answer is one fresh interpolator through start, its nodes and end, in that order when start.x < end.x. |
| Direct.DirectSolver.Interpolate | src/main/java/math/DirectSolver.java:29-36 | the single interpolator holds the sorted profile |
| Direct.DirectSolver.InterpolationPoints | src/main/java/math/DirectSolver.java:29-34 | the points are start, one new point per ordinate at grid abscissa i + 1, and end |

## Left out

- I/O, the Swing window (`core/MainWindow.java`) and the plotting
  (`graphics/GraphDisplay.java`) are not part of this model.
  `VariationalSolver.java` and `Interpolator.java` are interfaces with
  nothing to model.
- Floating point: doubles are reals, so rounding is not modelled.
  - Non-finite values appear only where a division by zero would produce
    them: `Lerp` and `NDimensional.Beta`.
  - A NaN or infinity returned by a user function f is not modelled.
- `Math.sqrt` is not modelled:
  - `RATIO = (3 - sqrt 5) / 2` is the `ratio` field of `GoldenConfig`. The
    nesting properties assume it solves r² - 3r + 1 = 0.
  - The comparisons of a length with EPSILON are made on squares.
- GoldenSection.GoldenConfig: the iteration count `lim`, which Java
  computes with `Math.log` and `Math.round`, is a function parameter.
- Direct.DirectSolver.Solve: the random initial guess (`Math.random`) is a
  parameter `initial`.
- LineSearch.Forward: the doubling `while` loops carry a fuel bound and
  report `OutOfFuel` when it runs out. Java loops until f stops
  decreasing. The same applies to LineSearch.Backward,
  LineSearch.ForwardOnAxis and LineSearch.BackwardOnAxis, and to the
  callers that pass the fault on.
- Direct.DirectSolver.FunctionalValue requires start.x != end.x.
  Otherwise the Java code divides by a zero spacing and computes with
  NaN.
- Direct.DirectSolver.Solve requires start.x != end.x for the same reason.
- Direct.DirectSolver.constructor: `steps` is a `nat`. A negative count
  in Java makes an empty initial guess and an ill-formed grid.
- Direct.Objective maps vectors shorter than `steps` to 0. Java would
  throw there, but the solver only ever evaluates vectors of the initial
  guess's length.
- Ballistic.Solve: Java builds each trajectory inside the objective that
  `findMin` calls. The model returns the evaluated slopes from `FindMin`
  and then builds one trajectory per slope, in the same order. Java
  discards `findMin`'s answer; the model returns it with the search's
  outcome, so that running out of fuel is visible.
- Not modelled:
  - the two-argument `findMinOnAxis(BiFunction, PointDouble, PointDouble)`
    of `SolverUtils`, which no solver calls;
  - the one-argument overloads `fdx(f, point)`, `fdy(f, point)` and
    `dfdk(point, index)`, which are order 1 of the modelled functions;
  - `PointDouble.length`, `normalize` and `toString`, and `PRECISION`,
    which are text formatting;
  - the getters.
- The no-argument constructors that leave f null are not modelled, because
  f is always a total function in the model.
- Log lines are kept as data (`Entry`, `Step`), not as the strings Java
  formats them into.
