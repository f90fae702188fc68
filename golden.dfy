/** Golden-section narrowing, `math/GoldenRatioSolver.java`, together with the
    trace-keeping base class `math/Solver1D.java` it extends: the solver records
    seven log entries and two points per iteration and answers with the midpoint
    of the final bracket. */
module GoldenSection {
  import opened Common
  import opened Points
  import opened Trace

  /** One log entry: the iteration header `i:` or a `name = value` line. */
  datatype Entry = Iteration(index: nat) | Field(name: string, value: real)

  /** The batch size `getLogBatchSize` reports: one batch per iteration. */
  const GOLDEN_BATCH_SIZE: nat := 7

  /** The narrowing ratio (3 - sqrt 5) / 2 and the iteration count the Java code
      computes from the interval with `Math.log` and `Math.round`. */
  datatype GoldenConfig = GoldenConfig(ratio: real, lim: (real, real) -> int) {

    predicate Valid() {
      ValidRatio(ratio)
    }

    /** The first iteration always runs; the loop then runs for i = 1 .. lim - 1. */
    function Iterations(lower: real, upper: real): nat {
      var l := lim(lower, upper);
      if l < 1 then 1 else l
    }
  }

  /** The ratio lies strictly between 0 and 1/2, as (3 - sqrt 5) / 2 does. */
  predicate ValidRatio(r: real) {
    0.0 < r < 0.5
  }

  /** A valid ratio solving r^2 - 3 r + 1 = 0: that pins it to (3 - sqrt 5) / 2. */
  predicate GoldenRatio(r: real) {
    ValidRatio(r) && r * r - 3.0 * r + 1.0 == 0.0
  }

  /** What an iteration logs: the bracket [a, b], the two probes and their values. */
  datatype Probes = Probes(a: real, b: real, x1: real, x2: real, y1: real, y2: real)

  /** The seven log entries of iteration k. */
  function Record(k: nat, p: Probes): seq<Entry> {
    [Iteration(k), Field("a", p.a), Field("b", p.b), Field("x1", p.x1),
     Field("x2", p.x2), Field("y1", p.y1), Field("y2", p.y2)]
  }

  /** The comparison after the log: a moves up to x1 when y1 > y2, otherwise
      (ties included) b moves down to x2; the probe that survives is copied into
      both probe slots. */
  function Narrow(p: Probes): Probes {
    if p.y1 > p.y2 then Probes(p.x1, p.b, p.x2, p.x2, p.y2, p.y2)
    else Probes(p.a, p.x2, p.x1, p.x1, p.y1, p.y1)
  }

  /** Where x1 is placed in [a, b]: a fraction r of the width above a. */
  function LowProbe(a: real, b: real, r: real): real {
    a + r * (b - a)
  }

  /** Where x2 is placed in [a, b]: a fraction r of the width below b. */
  function HighProbe(a: real, b: real, r: real): real {
    b - r * (b - a)
  }

  /** One golden-section run of f on [lower, upper] with the given ratio. */
  datatype Narrowing = Narrowing(f: real -> real, ratio: real, lower: real, upper: real) {

    /** The probes of iteration 0: both placed by the ratio and both evaluated. */
    function First(): Probes {
      var x1 := LowProbe(lower, upper, ratio);
      var x2 := HighProbe(lower, upper, ratio);
      Probes(lower, upper, x1, x2, f(x1), f(x2))
    }

    /** Narrow, then place and evaluate the one probe that is missing: a new x2
        when a moved (`upperCalculated` false), a new x1 when b moved. */
    function Next(p: Probes): Probes {
      var q := Narrow(p);
      if p.y1 > p.y2 then
        var x2 := HighProbe(q.a, q.b, ratio);
        q.(x2 := x2, y2 := f(x2))
      else
        var x1 := LowProbe(q.a, q.b, ratio);
        q.(x1 := x1, y1 := f(x1))
    }

    /** The probes iteration k logs. */
    function At(k: nat): Probes {
      if k == 0 then First() else Next(At(k - 1))
    }

    /** The argument iteration k >= 1 evaluates f at. */
    function NewProbe(k: nat): real
      requires k >= 1
    {
      if At(k - 1).y1 > At(k - 1).y2 then At(k).x2 else At(k).x1
    }

    /** The log of iterations 0 .. n-1. */
    function Log(n: nat): (r: seq<Entry>)
      ensures |r| == GOLDEN_BATCH_SIZE * n
    {
      if n == 0 then [] else Log(n - 1) + Record(n - 1, At(n - 1))
    }

    /** The points of iterations 0 .. n-1: (x1, y1) then (x2, y2) per iteration. */
    function Points(n: nat): (r: seq<Pt>)
      ensures |r| == 2 * n
    {
      if n == 0 then [] else Points(n - 1) + [Pt(At(n - 1).x1, At(n - 1).y1), Pt(At(n - 1).x2, At(n - 1).y2)]
    }

    /** The arguments f is applied to in iterations 0 .. n-1: two in the first,
        one in each later one. */
    function Evaluations(n: nat): (r: seq<real>)
      requires n >= 1
      ensures |r| == n + 1
    {
      if n == 1 then [At(0).x1, At(0).x2] else Evaluations(n - 1) + [NewProbe(n - 1)]
    }

    /** The bracket after the comparison of the last of n iterations. */
    function Final(n: nat): Probes
      requires n >= 1
    {
      Narrow(At(n - 1))
    }

    /** The answer's abscissa: the middle of the final bracket. */
    function Midpoint(n: nat): real
      requires n >= 1
    {
      (Final(n).b + Final(n).a) / 2.0
    }
  }

  /** The loop state after the comparison of iteration i - 1: the narrowed
      probes, which end moved, and the arguments f was applied to so far. */
  ghost predicate Narrowed(run: Narrowing, i: nat, p: Probes, upperCalculated: bool, evals: seq<real>) {
    1 <= i && p == Narrow(run.At(i - 1)) &&
    upperCalculated == !(run.At(i - 1).y1 > run.At(i - 1).y2) && evals == run.Evaluations(i)
  }

  /** The successor of p, spelled out from the narrowed bracket. */
  lemma NextFromNarrowed(run: Narrowing, p: Probes)
    ensures var q := Narrow(p);
      p.y1 > p.y2 ==> run.Next(p) == q.(x2 := HighProbe(q.a, q.b, run.ratio), y2 := run.f(HighProbe(q.a, q.b, run.ratio)))
    ensures var q := Narrow(p);
      !(p.y1 > p.y2) ==> run.Next(p) == q.(x1 := LowProbe(q.a, q.b, run.ratio), y1 := run.f(LowProbe(q.a, q.b, run.ratio)))
  {
  }

  /** A multiple of a point convexly between two reals stays within any interval holding both. */
  lemma ConvexStep(a: real, b: real, t: real, lo: real, hi: real)
    requires lo <= a <= hi && lo <= b <= hi && 0.0 <= t <= 1.0
    ensures lo <= LowProbe(a, b, t) <= hi
    ensures lo <= HighProbe(a, b, t) <= hi
  {
    assert a + t * (b - a) == (1.0 - t) * a + t * b;
    assert b - t * (b - a) == t * a + (1.0 - t) * b;
    NonNegativeProduct(1.0 - t, a - lo);
    NonNegativeProduct(t, b - lo);
    NonNegativeProduct(1.0 - t, hi - a);
    NonNegativeProduct(t, hi - b);
    NonNegativeProduct(t, a - lo);
    NonNegativeProduct(1.0 - t, b - lo);
    NonNegativeProduct(t, hi - a);
    NonNegativeProduct(1.0 - t, hi - b);
  }

  /** Every value an iteration logs for y1 and y2 is f at the probe it logs
      with it: a probe that survives a comparison keeps its correct value. */
  lemma {:induction false} ProbeValues(run: Narrowing, k: nat)
    ensures run.At(k).y1 == run.f(run.At(k).x1)
    ensures run.At(k).y2 == run.f(run.At(k).x2)
  {
    if k > 0 {
      ProbeValues(run, k - 1);
    }
  }

  /** For any ratio in [0, 1] and lower <= upper, both ends and both probes of
      every iteration lie in [lower, upper]. The ends need not stay ordered:
      that takes the golden ratio (GoldenPositions). */
  lemma {:induction false} StaysInside(run: Narrowing, k: nat)
    requires 0.0 <= run.ratio <= 1.0 && run.lower <= run.upper
    ensures run.lower <= run.At(k).a <= run.upper && run.lower <= run.At(k).b <= run.upper
    ensures run.lower <= run.At(k).x1 <= run.upper && run.lower <= run.At(k).x2 <= run.upper
  {
    var lo, hi := run.lower, run.upper;
    if k == 0 {
      FirstInside(run);
    } else {
      StaysInside(run, k - 1);
      NextInside(run, run.At(k - 1));
    }
  }

  lemma FirstInside(run: Narrowing)
    requires 0.0 <= run.ratio <= 1.0 && run.lower <= run.upper
    ensures var p := run.At(0);
      run.lower <= p.a <= run.upper && run.lower <= p.b <= run.upper &&
      run.lower <= p.x1 <= run.upper && run.lower <= p.x2 <= run.upper
  {
    var lo, hi := run.lower, run.upper;
    var p := run.At(0);
    assert p == run.First();
    assert p.a == lo && p.b == hi && p.x1 == LowProbe(lo, hi, run.ratio) && p.x2 == HighProbe(lo, hi, run.ratio);
    ConvexStep(lo, hi, run.ratio, lo, hi);
  }

  lemma NextInside(run: Narrowing, p: Probes)
    requires 0.0 <= run.ratio <= 1.0
    requires run.lower <= p.a <= run.upper && run.lower <= p.b <= run.upper
    requires run.lower <= p.x1 <= run.upper && run.lower <= p.x2 <= run.upper
    ensures var q := run.Next(p);
      run.lower <= q.a <= run.upper && run.lower <= q.b <= run.upper &&
      run.lower <= q.x1 <= run.upper && run.lower <= q.x2 <= run.upper
  {
    var q := Narrow(p);
    ConvexStep(q.a, q.b, run.ratio, run.lower, run.upper);
  }

  /** The answer lies in [lower, upper] for any ratio in [0, 1]. */
  lemma MidpointInside(run: Narrowing, n: nat)
    requires n >= 1
    requires 0.0 <= run.ratio <= 1.0 && run.lower <= run.upper
    ensures run.lower <= run.Midpoint(n) <= run.upper
  {
    StaysInside(run, n - 1);
  }

  /** The golden equation turns the reused probe's offset into the fresh one's. */
  lemma GoldenIdentities(r: real, w: real)
    requires r * r - 3.0 * r + 1.0 == 0.0
    ensures r * ((1.0 - r) * w) == (1.0 - 2.0 * r) * w
    ensures (1.0 - r) * ((1.0 - r) * w) == r * w
  {
    assert r * ((1.0 - r) * w) == (r - r * r) * w;
    assert (1.0 - r) * ((1.0 - r) * w) == (1.0 - 2.0 * r + r * r) * w;
  }

  lemma NonNegativeProduct(u: real, v: real)
    requires u >= 0.0 && v >= 0.0
    ensures u * v >= 0.0
  {
  }

  /** Probes placed at the golden positions of a bracket of non-negative width. */
  ghost predicate AtGoldenPositions(p: Probes, r: real) {
    p.a <= p.b && p.x1 == LowProbe(p.a, p.b, r) && p.x2 == HighProbe(p.a, p.b, r)
  }

  /** One golden step keeps the probes at the golden positions, moves the ends
      inwards and shrinks the bracket by the factor 1 - ratio. */
  lemma GoldenSuccessor(run: Narrowing, p: Probes)
    requires GoldenRatio(run.ratio)
    requires AtGoldenPositions(p, run.ratio)
    ensures AtGoldenPositions(run.Next(p), run.ratio)
    ensures run.Next(p).b - run.Next(p).a == (1.0 - run.ratio) * (p.b - p.a)
    ensures p.a <= run.Next(p).a && run.Next(p).b <= p.b
  {
    var r, w := run.ratio, p.b - p.a;
    var q := run.Next(p);
    GoldenIdentities(r, w);
    NonNegativeProduct(r, w);
    NonNegativeProduct(1.0 - r, w);
    if p.y1 > p.y2 {
      assert q.a == p.x1 && q.b == p.b && q.x1 == p.x2;
      assert q.b - q.a == (1.0 - r) * w;
    } else {
      assert q.a == p.a && q.b == p.x2 && q.x2 == p.x1;
      assert q.b - q.a == (1.0 - r) * w;
    }
  }

  /** Golden probes nest: a <= x1 <= x2 <= b. */
  lemma GoldenNests(p: Probes, r: real)
    requires ValidRatio(r) && AtGoldenPositions(p, r)
    ensures p.a <= p.x1 <= p.x2 <= p.b
  {
    NonNegativeProduct(r, p.b - p.a);
    NonNegativeProduct(1.0 - 2.0 * r, p.b - p.a);
  }

  /** With the golden ratio the probe that survives a comparison lands exactly
      where a fresh one would: every iteration has x1 = a + ratio (b - a) and
      x2 = b - ratio (b - a), inside [lower, upper]. */
  lemma {:induction false} GoldenInvariant(run: Narrowing, k: nat)
    requires GoldenRatio(run.ratio) && run.lower <= run.upper
    ensures AtGoldenPositions(run.At(k), run.ratio)
    ensures run.lower <= run.At(k).a && run.At(k).b <= run.upper
  {
    if k > 0 {
      GoldenInvariant(run, k - 1);
      GoldenSuccessor(run, run.At(k - 1));
    }
  }

  /** With the golden ratio the bracket nests in every iteration:
      lower <= a <= x1 <= x2 <= b <= upper. */
  lemma GoldenNesting(run: Narrowing, k: nat)
    requires GoldenRatio(run.ratio) && run.lower <= run.upper
    ensures var p := run.At(k);
      run.lower <= p.a <= p.x1 <= p.x2 <= p.b <= run.upper
  {
    GoldenInvariant(run, k);
    GoldenNests(run.At(k), run.ratio);
  }

  /** With the golden ratio each iteration moves exactly one end inwards onto a
      probe (a onto x1 when y1 > y2, otherwise b onto x2) and multiplies the
      width by 1 - ratio. */
  lemma GoldenStep(run: Narrowing, k: nat)
    requires GoldenRatio(run.ratio) && run.lower <= run.upper
    ensures var p, q := run.At(k), run.At(k + 1);
      (p.y1 > p.y2 ==> q.a == p.x1 && q.b == p.b) && (p.y1 <= p.y2 ==> q.a == p.a && q.b == p.x2)
    ensures var p, q := run.At(k), run.At(k + 1);
      p.a <= q.a && q.b <= p.b && q.b - q.a == (1.0 - run.ratio) * (p.b - p.a)
  {
    GoldenInvariant(run, k);
    GoldenSuccessor(run, run.At(k));
  }

  /** The batches `getSolutionLog` returns for the log of n iterations are the
      records of iterations 0 .. n-2: the last iteration's batch is never closed. */
  lemma {:induction false} BatchesAreIterations(run: Narrowing, batches: seq<seq<Entry>>, m: nat)
    requires Full(batches, GOLDEN_BATCH_SIZE) && |batches| == m
    requires Flatten(batches) == run.Log(m)
    ensures forall j :: 0 <= j < m ==> batches[j] == Record(j, run.At(j))
  {
    if m > 0 {
      var init := batches[..m - 1];
      assert batches == init + [batches[m - 1]];
      FlattenAppend(init, batches[m - 1]);
      FlattenFull(init, GOLDEN_BATCH_SIZE);
      var log := run.Log(m);
      assert Flatten(init) == log[..|log| - GOLDEN_BATCH_SIZE];
      assert batches[m - 1] == log[|log| - GOLDEN_BATCH_SIZE..];
      BatchesAreIterations(run, init, m - 1);
    }
  }

  /** `GoldenRatioSolver`, with the members it inherits from `Solver1D`. */
  class GoldenRatioSolver {
    var f: real -> real
    var log: seq<Entry>
    var points: seq<Pt>

    constructor (f: real -> real)
      ensures this.f == f && log == [] && points == []
    {
      this.f := f;
      log := [];
      points := [];
    }

    method SetF(g: real -> real)
      modifies this`f
      ensures f == g
    {
      f := g;
    }

    /** Clears both traces, then runs the narrowing: afterwards the traces hold
        exactly this run's entries. Also returns the arguments f was applied to,
        in order. */
    method Solve(lower: real, upper: real, cfg: GoldenConfig) returns (res: Pt, evals: seq<real>)
      modifies this`log, this`points
      ensures var run, n := Narrowing(f, cfg.ratio, lower, upper), cfg.Iterations(lower, upper);
        log == run.Log(n) && points == run.Points(n) &&
        res == Pt(run.Midpoint(n), f(run.Midpoint(n))) &&
        evals == run.Evaluations(n) + [res.x]
    {
      points := [];
      log := [];
      res, evals := SolveInternal(lower, upper, cfg);
    }

    method AddToLog(e: Entry)
      modifies this`log
      ensures log == old(log) + [e]
    {
      log := log + [e];
    }

    method AddPoint(p: Pt)
      modifies this`points
      ensures points == old(points) + [p]
    {
      points := points + [p];
    }

    /** The seven log lines and the two points every iteration records. */
    method RecordIteration(k: nat, p: Probes)
      modifies this`log, this`points
      ensures log == old(log) + Record(k, p)
      ensures points == old(points) + [Pt(p.x1, p.y1), Pt(p.x2, p.y2)]
    {
      AddToLog(Iteration(k));
      AddToLog(Field("a", p.a));
      AddToLog(Field("b", p.b));
      AddToLog(Field("x1", p.x1));
      AddToLog(Field("x2", p.x2));
      AddToLog(Field("y1", p.y1));
      AddToLog(Field("y2", p.y2));
      AddPoint(Pt(p.x1, p.y1));
      AddPoint(Pt(p.x2, p.y2));
    }

    /** The narrowing loop: max(1, lim) iterations, appending to the traces. */
    method SolveInternal(lower: real, upper: real, cfg: GoldenConfig) returns (res: Pt, evals: seq<real>)
      modifies this`log, this`points
      ensures var run, n := Narrowing(f, cfg.ratio, lower, upper), cfg.Iterations(lower, upper);
        log == old(log) + run.Log(n) && points == old(points) + run.Points(n) &&
        res == Pt(run.Midpoint(n), f(run.Midpoint(n))) &&
        evals == run.Evaluations(n) + [res.x]
    {
      var f := this.f;
      ghost var run := Narrowing(f, cfg.ratio, lower, upper);
      var p;
      p, evals := Iterations(run, cfg.ratio, lower, upper, cfg.lim(lower, upper));
      var mid := (p.b + p.a) / 2.0;
      res := Pt(mid, f(mid));
      evals := evals + [mid];
    }

    /** The iterations of the narrowing: the first, then i = 1 .. lim - 1. */
    method Iterations(ghost run: Narrowing, ratio: real, lower: real, upper: real, lim: int) returns (p: Probes, evals: seq<real>)
      requires run.f == f && run.ratio == ratio && run.lower == lower && run.upper == upper
      modifies this`log, this`points
      ensures var n := if lim < 1 then 1 else lim;
        p == run.Final(n) && evals == run.Evaluations(n) &&
        log == old(log) + run.Log(n) && points == old(points) + run.Points(n)
    {
      var upperCalculated;
      p, upperCalculated, evals := Begin(run, ratio, lower, upper, old(log), old(points));
      var i := 1;
      while i < lim
        invariant 1 <= i && (i <= lim || i == 1)
        invariant Narrowed(run, i, p, upperCalculated, evals)
        invariant log == old(log) + run.Log(i)
        invariant points == old(points) + run.Points(i)
      {
        p, upperCalculated, evals := Iterate(run, ratio, i, p, upperCalculated, evals, old(log), old(points));
        i := i + 1;
      }
    }

    /** Iteration 0: places and evaluates both probes, records them, then compares. */
    method Begin(ghost run: Narrowing, ratio: real, lower: real, upper: real,
                 ghost log0: seq<Entry>, ghost points0: seq<Pt>)
      returns (next: Probes, nextUpper: bool, nextEvals: seq<real>)
      requires run.f == f && run.ratio == ratio && run.lower == lower && run.upper == upper
      requires log == log0 && points == points0
      modifies this`log, this`points
      ensures Narrowed(run, 1, next, nextUpper, nextEvals)
      ensures log == log0 + run.Log(1) && points == points0 + run.Points(1)
    {
      var f := this.f;
      var a := lower;
      var b := upper;
      var x1 := LowProbe(a, b, ratio);
      var x2 := HighProbe(a, b, ratio);
      var y1 := f(x1);
      var y2 := f(x2);
      nextEvals := [x1, x2];
      assert Probes(a, b, x1, x2, y1, y2) == run.At(0);
      RecordIteration(0, Probes(a, b, x1, x2, y1, y2));
      if y1 > y2 {
        a := x1;
        x1 := x2;
        y1 := y2;
        nextUpper := false;
      } else {
        b := x2;
        x2 := x1;
        y2 := y1;
        nextUpper := true;
      }
      next := Probes(a, b, x1, x2, y1, y2);
    }

    /** One pass of the loop for iteration i >= 1: places and evaluates the probe
        that is missing, records the iteration, then compares. The six locals
        a, b, x1, x2, y1, y2 travel as one Probes value. */
    method Iterate(ghost run: Narrowing, ratio: real, i: nat, p: Probes, upperCalculated: bool, evals: seq<real>,
                   ghost log0: seq<Entry>, ghost points0: seq<Pt>)
      returns (next: Probes, nextUpper: bool, nextEvals: seq<real>)
      requires run.f == f && run.ratio == ratio
      requires Narrowed(run, i, p, upperCalculated, evals)
      requires log == log0 + run.Log(i) && points == points0 + run.Points(i)
      modifies this`log, this`points
      ensures Narrowed(run, i + 1, next, nextUpper, nextEvals)
      ensures log == log0 + run.Log(i + 1) && points == points0 + run.Points(i + 1)
    {
      var f := this.f;
      var a, b, x1, x2, y1, y2 := p.a, p.b, p.x1, p.x2, p.y1, p.y2;
      NextFromNarrowed(run, run.At(i - 1));
      if upperCalculated {
        x1 := LowProbe(a, b, ratio);
        y1 := f(x1);
        nextEvals := evals + [x1];
      } else {
        x2 := HighProbe(a, b, ratio);
        y2 := f(x2);
        nextEvals := evals + [x2];
      }
      assert run.At(i) == Probes(a, b, x1, x2, y1, y2);
      Associative(log0, run.Log(i), Record(i, run.At(i)));
      Associative(points0, run.Points(i), [Pt(x1, y1), Pt(x2, y2)]);
      RecordIteration(i, Probes(a, b, x1, x2, y1, y2));
      if y1 > y2 {
        a := x1;
        x1 := x2;
        y1 := y2;
        nextUpper := false;
      } else {
        b := x2;
        x2 := x1;
        y2 := y1;
        nextUpper := true;
      }
      next := Probes(a, b, x1, x2, y1, y2);
    }

    /** The log cut into batches of seven entries, in log order. A batch is
        closed only when the next one starts, so the last is never returned:
        (L - 1) / 7 batches for L > 0 entries. */
    method GetSolutionLog() returns (batches: seq<seq<Entry>>)
      ensures Full(batches, GOLDEN_BATCH_SIZE)
      ensures |batches| == if log == [] then 0 else (|log| - 1) / GOLDEN_BATCH_SIZE
      ensures Flatten(batches) == log[..|batches| * GOLDEN_BATCH_SIZE]
    {
      var pending;
      batches, pending := SplitLog(log, GOLDEN_BATCH_SIZE);
      if log != [] {
        BatchCount(log, GOLDEN_BATCH_SIZE, batches, pending);
      }
    }
  }

  /** After a solve of n iterations the solution log holds n - 1 batches, the
      records of every iteration but the last. */
  lemma SolutionLogOfRun(run: Narrowing, n: nat, batches: seq<seq<Entry>>)
    requires n >= 1
    requires Full(batches, GOLDEN_BATCH_SIZE)
    requires |batches| == (|run.Log(n)| - 1) / GOLDEN_BATCH_SIZE
    requires Flatten(batches) == run.Log(n)[..|batches| * GOLDEN_BATCH_SIZE]
    ensures |batches| == n - 1
    ensures forall j :: 0 <= j < n - 1 ==> batches[j] == Record(j, run.At(j))
  {
    assert |batches| == n - 1;
    assert run.Log(n)[..GOLDEN_BATCH_SIZE * (n - 1)] == run.Log(n - 1);
    BatchesAreIterations(run, batches, n - 1);
  }
}
