/** The static helpers of `math/SolverUtils.java`: forward-difference partial
    derivatives of a two-argument function, and the line searches that first
    bracket a minimum by doubling a step and then narrow the bracket by golden
    section, along the real line (`findMin`) and along a direction vector
    (`findMinOnAxis`). */
module LineSearch {
  import opened Common
  import opened Points
  import opened GoldenSection

  // ----- Finite differences -----

  /** `fdx(f, point, order)`: order 0 is f at the point, order k + 1 the
      forward-difference quotient of two order-k values taken EPSILON apart
      along x. A negative order is rejected. */
  function Fdx(f: (real, real) -> real, p: Pt, order: int): (r: Result<real>)
    decreases order
    ensures r.Err? <==> order < 0
    ensures r.Err? ==> r.error == NegativeOrder
  {
    if order < 0 then Err(NegativeOrder)
    else if order == 0 then Ok(f(p.x, p.y))
    else Ok((Fdx(f, p.Shift(EPSILON, 0.0), order - 1).value - Fdx(f, p, order - 1).value) / EPSILON)
  }

  /** `fdy(f, point, order)`: as `Fdx`, stepping along y. */
  function Fdy(f: (real, real) -> real, p: Pt, order: int): (r: Result<real>)
    decreases order
    ensures r.Err? <==> order < 0
    ensures r.Err? ==> r.error == NegativeOrder
  {
    if order < 0 then Err(NegativeOrder)
    else if order == 0 then Ok(f(p.x, p.y))
    else Ok((Fdy(f, p.Shift(0.0, EPSILON), order - 1).value - Fdy(f, p, order - 1).value) / EPSILON)
  }

  /** `gradient(f, point)`: the first-order differences along x and along y,
      each the slope of f over one EPSILON step from the point. */
  function Gradient(f: (real, real) -> real, p: Pt): (r: Pt)
    ensures r.x == (f(p.x + EPSILON, p.y) - f(p.x, p.y)) / EPSILON
    ensures r.y == (f(p.x, p.y + EPSILON) - f(p.x, p.y)) / EPSILON
  {
    Pt(Fdx(f, p, 1).value, Fdy(f, p, 1).value)
  }

  /** f with its two arguments exchanged. */
  function Swapped(f: (real, real) -> real): (real, real) -> real {
    (u, v) => f(v, u)
  }

  /** Differencing along y is differencing along x of the function with its
      arguments exchanged, at the mirrored point: `fdy` is `fdx` up to the
      choice of axis, at every order. */
  lemma {:induction false} FdyIsSwappedFdx(f: (real, real) -> real, p: Pt, order: int)
    decreases order
    ensures Fdy(f, p, order) == Fdx(Swapped(f), Pt(p.y, p.x), order)
  {
    if order > 0 {
      FdyIsSwappedFdx(f, p.Shift(0.0, EPSILON), order - 1);
      FdyIsSwappedFdx(f, p, order - 1);
    }
  }

  /** On an affine function a x + b y + c the first x-difference is exactly a
      and every higher one is 0, at every point. */
  lemma {:induction false} FdxOfAffine(f: (real, real) -> real, a: real, b: real, c: real, p: Pt, order: int)
    requires forall u, v :: f(u, v) == a * u + b * v + c
    requires order >= 1
    decreases order
    ensures Fdx(f, p, order) == Ok(if order == 1 then a else 0.0)
  {
    if order == 1 {
      assert f(p.x + EPSILON, p.y) - f(p.x, p.y) == a * EPSILON;
    } else {
      FdxOfAffine(f, a, b, c, p.Shift(EPSILON, 0.0), order - 1);
      FdxOfAffine(f, a, b, c, p, order - 1);
    }
  }

  /** The y-differences of an affine function: b at order 1, 0 above. */
  lemma FdyOfAffine(f: (real, real) -> real, a: real, b: real, c: real, p: Pt, order: int)
    requires forall u, v :: f(u, v) == a * u + b * v + c
    requires order >= 1
    ensures Fdy(f, p, order) == Ok(if order == 1 then b else 0.0)
  {
    FdyIsSwappedFdx(f, p, order);
    forall u, v ensures Swapped(f)(u, v) == b * u + a * v + c {
      assert Swapped(f)(u, v) == f(v, u);
    }
    FdxOfAffine(Swapped(f), b, a, c, Pt(p.y, p.x), order);
  }

  /** The gradient of a x + b y + c is (a, b) everywhere. */
  lemma GradientOfAffine(f: (real, real) -> real, a: real, b: real, c: real, p: Pt)
    requires forall u, v :: f(u, v) == a * u + b * v + c
    ensures Gradient(f, p) == Pt(a, b)
  {
    FdxOfAffine(f, a, b, c, p, 1);
    FdyOfAffine(f, a, b, c, p, 1);
  }

  // ----- findMin -----

  lemma ProductSign(u: real, v: real)
    requires v >= 0.0
    ensures u >= 0.0 ==> u * v >= 0.0
    ensures u <= 0.0 ==> u * v <= 0.0
  {
    if u >= 0.0 {
      NonNegativeProduct(u, v);
    } else {
      NonNegativeProduct(-u, v);
    }
  }

  /** The probe `x + s * 2^i` of a forward comparison: on the side of x that s points to. */
  function Ahead(x: real, s: real, i: nat): (r: real)
    ensures s >= 0.0 ==> r >= x
    ensures s <= 0.0 ==> r <= x
  {
    ProductSign(s, Pow2(i));
    x + s * Pow2(i)
  }

  /** The probe `x - s * 2^i` of a backward comparison: on the other side. */
  function Behind(x: real, s: real, i: nat): (r: real)
    ensures s >= 0.0 ==> r <= x
    ensures s <= 0.0 ==> r >= x
  {
    ProductSign(s, Pow2(i));
    x - s * Pow2(i)
  }

  /** s divided by 2, j times over: the scale after j halvings of the do-while loop. */
  function Halved(s: real, j: nat): real {
    if j == 0 then s else Halved(s, j - 1) / 2.0
  }

  /** The four arguments of a round that finds no descent at scale s: the
      forward comparison at start + 2 s, then the backward one at start - s.
      The doubling index stays 1 across rounds. */
  function RoundEvals(start: real, s: real): seq<real> {
    [start, Ahead(start, s, 1), start, Behind(start, s, 0)]
  }

  /** The arguments of rounds 0 .. n-1 at the halved scales. */
  function Rounds(start: real, scale: real, n: nat): (r: seq<real>)
    ensures |r| == 4 * n
  {
    if n == 0 then [] else Rounds(start, scale, n - 1) + RoundEvals(start, Halved(scale, n - 1))
  }

  /** A round at scale s finds f lower in neither direction. */
  predicate RoundFails(f: real -> real, start: real, s: real) {
    f(start) < f(Ahead(start, s, 1)) && f(start) <= f(Behind(start, s, 0))
  }

  /** Rounds 0 .. n-1 at the halved scales all failed. */
  predicate AllFail(f: real -> real, start: real, scale: real, n: nat) {
    n == 0 || (AllFail(f, start, scale, n - 1) && RoundFails(f, start, Halved(scale, n - 1)))
  }

  /** The scales after 1 .. n halvings all exceed EPSILON. */
  predicate AllAbove(scale: real, n: nat) {
    n == 0 || (AllAbove(scale, n - 1) && Halved(scale, n) > EPSILON)
  }

  lemma {:induction false} AllFailEach(f: real -> real, start: real, scale: real, n: nat)
    requires AllFail(f, start, scale, n)
    ensures forall j :: 0 <= j < n ==> RoundFails(f, start, Halved(scale, j))
  {
    if n > 0 {
      AllFailEach(f, start, scale, n - 1);
    }
  }

  lemma {:induction false} AllAboveEach(scale: real, n: nat)
    requires AllAbove(scale, n)
    ensures forall j :: 1 <= j <= n ==> Halved(scale, j) > EPSILON
  {
    if n > 0 {
      AllAboveEach(scale, n - 1);
    }
  }

  /** The first comparison of the round that found a descent at scale s:
      forward (`up`) when f(start + 2 s) is not above f(start), backward
      when that failed and f(start - s) is below f(start). */
  predicate Opens(f: real -> real, up: bool, start: real, s: real) {
    if up then f(start) >= f(Ahead(start, s, 1))
    else f(start) < f(Ahead(start, s, 1)) && f(start) > f(Behind(start, s, 0))
  }

  /** The arguments that round evaluated. */
  function Opening(up: bool, start: real, s: real): (r: seq<real>)
    ensures |r| >= 2 && r[0] == start && r[1] == Ahead(start, s, 1)
  {
    if up then [start, Ahead(start, s, 1)] else RoundEvals(start, s)
  }

  /** The probe `next` of a doubling loop from start with step d after m
      moves: start + 2 d, then x + d 2^m from the previous probe x, in the
      positive direction (`up`); start - d, then x - d 2^m, in the negative. */
  function Probe(up: bool, start: real, d: real, m: nat): real {
    if m == 0 then (if up then Ahead(start, d, 1) else Behind(start, d, 0))
    else if up then Ahead(Probe(up, start, d, m - 1), d, m)
    else Behind(Probe(up, start, d, m - 1), d, m)
  }

  /** The probes of a forward doubling loop lie on the line through start,
      at start + d 2^(m+1): the distance doubles with every move. */
  lemma {:induction false} ForwardReach(start: real, d: real, m: nat)
    ensures Probe(true, start, d, m) == start + d * Pow2(m + 1)
  {
    if m > 0 {
      ForwardReach(start, d, m - 1);
      Doubles(d, Pow2(m));
    }
  }

  /** The probes of a backward doubling loop lie on the other side of start,
      at start - d (2^(m+1) - 1). */
  lemma {:induction false} BackwardReach(start: real, d: real, m: nat)
    ensures Probe(false, start, d, m) == start - d * (Pow2(m + 1) - 1.0)
  {
    if m > 0 {
      BackwardReach(start, d, m - 1);
      Doubles(d, Pow2(m));
    }
  }

  lemma Doubles(d: real, w: real)
    ensures d * (2.0 * w) == d * w + d * w
    ensures d * (2.0 * w - 1.0) == d * (w - 1.0) + d * w
  {
  }

  /** The point `curr` of a doubling loop after m moves: the start, then
      the previous probe. */
  function Held(up: bool, start: real, d: real, m: nat): real {
    if m == 0 then start else Probe(up, start, d, m - 1)
  }

  /** The point `prev` after m moves. */
  function Left(up: bool, start: real, d: real, m: nat): real {
    if m == 0 then start else Held(up, start, d, m - 1)
  }

  /** The test of a doubling loop on the values fx = f(curr) and
      fy = f(next): fx > fy in the positive direction, fx >= fy in the
      negative one. */
  predicate Continues(up: bool, fx: real, fy: real) {
    if up then fx > fy else fx >= fy
  }

  /** The loop test held at each of the first m positions, so the loop
      moved m times. */
  predicate Doubled(f: real -> real, up: bool, start: real, d: real, m: nat) {
    m == 0 || (Doubled(f, up, start, d, m - 1) && Continues(up, f(Held(up, start, d, m - 1)), f(Probe(up, start, d, m - 1))))
  }

  /** The arguments of the first m loop tests, curr then next each time. */
  function Doubling(up: bool, start: real, d: real, m: nat): (r: seq<real>)
    ensures |r| == 2 * m
  {
    if m == 0 then [] else Doubling(up, start, d, m - 1) + [Held(up, start, d, m - 1), Probe(up, start, d, m - 1)]
  }

  /** How the search ended. */
  datatype Outcome =
    | Fallback(rounds: nat)
      // no direction decreased f before the scale fell to EPSILON or below
    | Bracketed(rounds: nat, up: bool, moves: nat, prev: real, curr: real, next: real, search: seq<real>)
      // after `rounds` failed rounds, a descent in direction `up` and
      // `moves` moves of the doubling loop found f(curr) at most f(prev) and
      // f(next); `search` holds the arguments evaluated up to that point
    | Exhausted(rounds: nat, up: bool)
      // the doubling loop in direction `up` ran out of fuel

  /** Which comparison of a round found f lower, if any. */
  datatype Direction = Up | Down | Neither

  /** The positive-direction loop of `findMin`: from prev = curr = start and
      next = start + 2 d, it moves the three points one step on and doubles
      the step while f(curr) > f(next). When it stops, curr lies between prev
      and next and f(curr) is at most both neighbours. Returns how often it
      moved and the arguments of its tests. */
  method Forward(f: real -> real, d: real, start: real, fuel: nat)
    returns (found: bool, moves: nat, prev: real, curr: real, next: real, search: seq<real>)
    ensures moves <= fuel
    ensures search == Doubling(true, start, d, moves + 1) && Doubled(f, true, start, d, moves)
    ensures found ==>
      prev == Left(true, start, d, moves) && curr == Held(true, start, d, moves) &&
      next == Probe(true, start, d, moves) && !Continues(true, f(curr), f(next))
    ensures !found ==> moves == fuel && Continues(true, f(Held(true, start, d, moves)), f(Probe(true, start, d, moves)))
    ensures found ==> f(curr) <= f(prev) && f(curr) <= f(next)
    ensures found ==> (d >= 0.0 ==> prev <= curr <= next) && (d <= 0.0 ==> next <= curr <= prev)
  {
    var i: nat := 1;
    prev, curr := start, start;
    next := Ahead(curr, d, i);
    search := [];
    moves := 0;
    var k := fuel;
    while true
      invariant i == moves + 1 && moves + k == fuel
      invariant prev == Left(true, start, d, moves) && curr == Held(true, start, d, moves)
      invariant next == Probe(true, start, d, moves)
      invariant search == Doubling(true, start, d, moves) && Doubled(f, true, start, d, moves)
      invariant f(curr) <= f(prev)
      invariant (d >= 0.0 ==> prev <= curr <= next) && (d <= 0.0 ==> next <= curr <= prev)
      decreases k
    {
      var fc := f(curr);
      var fn := f(next);
      search := search + [curr, next];
      if !(fc > fn) {
        found := true;
        return;
      }
      if k == 0 {
        found := false;
        return;
      }
      prev, curr := curr, next;
      next := Ahead(curr, d, i);
      i, k, moves := i + 1, k - 1, moves + 1;
    }
  }

  /** The negative-direction loop of `findMin`: from prev = curr = start and
      next = start - d, it moves on and doubles the step while
      f(curr) >= f(next). */
  method Backward(f: real -> real, d: real, start: real, fuel: nat)
    returns (found: bool, moves: nat, prev: real, curr: real, next: real, search: seq<real>)
    ensures moves <= fuel
    ensures search == Doubling(false, start, d, moves + 1) && Doubled(f, false, start, d, moves)
    ensures found ==>
      prev == Left(false, start, d, moves) && curr == Held(false, start, d, moves) &&
      next == Probe(false, start, d, moves) && !Continues(false, f(curr), f(next))
    ensures !found ==> moves == fuel && Continues(false, f(Held(false, start, d, moves)), f(Probe(false, start, d, moves)))
    ensures found ==> f(curr) <= f(prev) && f(curr) < f(next)
    ensures found ==> (d >= 0.0 ==> next <= curr <= prev) && (d <= 0.0 ==> prev <= curr <= next)
  {
    var i: nat := 1;
    prev, curr := start, start;
    next := Behind(curr, d, i - 1);
    search := [];
    moves := 0;
    var k := fuel;
    while true
      invariant i == moves + 1 && moves + k == fuel
      invariant prev == Left(false, start, d, moves) && curr == Held(false, start, d, moves)
      invariant next == Probe(false, start, d, moves)
      invariant search == Doubling(false, start, d, moves) && Doubled(f, false, start, d, moves)
      invariant f(curr) <= f(prev)
      invariant (d >= 0.0 ==> next <= curr <= prev) && (d <= 0.0 ==> prev <= curr <= next)
      decreases k
    {
      var fc := f(curr);
      var fn := f(next);
      search := search + [curr, next];
      if !(fc >= fn) {
        found := true;
        return;
      }
      if k == 0 {
        found := false;
        return;
      }
      prev, curr := curr, next;
      next := Behind(curr, d, i);
      i, k, moves := i + 1, k - 1, moves + 1;
    }
  }

  /** Halving s/2 n times is halving s n + 1 times. */
  lemma {:induction false} HalvedShift(s: real, n: nat)
    ensures Halved(s / 2.0, n) == Halved(s, n + 1)
  {
    if n > 0 {
      HalvedShift(s, n - 1);
    }
  }

  /** Every value falls to a positive bound q or below after finitely many halvings. */
  lemma HalvingsBelow(s: real, q: real) returns (n: nat)
    requires q > 0.0
    ensures Halved(s, n) <= q
    decreases (s / q).Floor
  {
    if s <= q {
      n := 0;
    } else if s / 2.0 <= q {
      n := 1;
    } else {
      var a, b := (s / 2.0) / q, s / q;
      assert b == 2.0 * a;
      assert a.Floor as real <= a && b.Floor as real > b - 1.0;
      var m := HalvingsBelow(s / 2.0, q);
      HalvedShift(s, m);
      n := m + 1;
    }
  }

  /** One round of `findMin` at scale s from currX with the doubling index
      i: compare f(currX) with f(currX + s 2^i) and, if that is not lower,
      with f(currX - s 2^(i-1)). Returns which comparison found f lower, if
      any, and the arguments evaluated. */
  method Round(f: real -> real, currX: real, s: real, i: nat) returns (direction: Direction, evals: seq<real>)
    requires i >= 1
    ensures direction == Up ==> f(currX) >= f(Ahead(currX, s, i)) && evals == [currX, Ahead(currX, s, i)]
    ensures direction != Up ==>
      f(currX) < f(Ahead(currX, s, i)) &&
      evals == [currX, Ahead(currX, s, i), currX, Behind(currX, s, i - 1)]
    ensures direction == Down ==> f(currX) > f(Behind(currX, s, i - 1))
    ensures direction == Neither ==> f(currX) <= f(Behind(currX, s, i - 1))
  {
    var nextX := Ahead(currX, s, i);
    evals := [currX, nextX];
    if f(currX) >= f(nextX) {
      return Up, evals;
    }
    nextX := Behind(currX, s, i - 1);
    evals := evals + [currX, nextX];
    if f(currX) > f(nextX) {
      return Down, evals;
    }
    return Neither, evals;
  }

  /** The rounds of `findMin` up to the first descent: with the doubling
      index fixed at 1, each round compares f(start) with f(start + 2 s) and
      with f(start - s), and halves s when neither is lower; the rounds go on
      while s > EPSILON. Returns the direction of the descent, the number of
      failed rounds, the scale reached and the arguments evaluated. */
  method Scan(f: real -> real, scale: real, startValue: real)
    returns (direction: Direction, rounds: nat, s: real, evals: seq<real>)
    ensures s == Halved(scale, rounds)
    ensures |evals| >= 2 && evals[0] == startValue && evals[1] == Ahead(startValue, scale, 1)
    ensures AllFail(f, startValue, scale, rounds)
    ensures rounds >= 1 ==> AllAbove(scale, rounds - 1)
    ensures direction != Neither ==> AllAbove(scale, rounds)
    ensures direction == Neither ==>
      rounds >= 1 && s <= EPSILON && evals == Rounds(startValue, scale, rounds)
    ensures direction == Up ==>
      f(startValue) >= f(Ahead(startValue, s, 1)) &&
      evals == Rounds(startValue, scale, rounds) + [startValue, Ahead(startValue, s, 1)]
    ensures direction == Down ==>
      f(startValue) < f(Ahead(startValue, s, 1)) && f(startValue) > f(Behind(startValue, s, 0)) &&
      evals == Rounds(startValue, scale, rounds) + RoundEvals(startValue, s)
  {
    var i: nat := 0;
    var prevX, currX := startValue, startValue;
    var nextX := Ahead(currX, scale, i);
    i := i + 1;
    s := scale;
    rounds := 0;
    evals := [];
    ghost var bound := HalvingsBelow(scale, EPSILON);
    while true
      invariant i == 1 && prevX == startValue && currX == startValue
      invariant s == Halved(scale, rounds)
      invariant evals == Rounds(startValue, scale, rounds)
      invariant rounds >= 1 ==> |evals| >= 2 && evals[0] == startValue && evals[1] == Ahead(startValue, scale, 1)
      invariant AllFail(f, startValue, scale, rounds)
      invariant AllAbove(scale, rounds)
      invariant rounds <= bound
      decreases bound - rounds
    {
      var e;
      direction, e := Round(f, currX, s, i);
      evals := evals + e;
      if direction != Neither {
        return;
      }
      assert RoundFails(f, startValue, Halved(scale, rounds)) && e == RoundEvals(startValue, s);
      s := s / 2.0;
      rounds := rounds + 1;
      if !(s > EPSILON) {
        break;
      }
    }
  }

  /** What `findMin(f, scale, startValue)` does, in terms of its arguments:
      `rounds` rounds that found no descent, at the scales halved 0 ..
      rounds - 1 times, each followed by a halving that left the scale above
      EPSILON (all but the last, when no descent came); then one of
      - no descent: the start value comes back;
      - a descent in direction `up` at the scale reached, `moves` moves of
        the doubling loop while its test held, the test failing at prev,
        curr, next, and golden section on [min(prev, next), max(prev, next)],
        whose midpoint comes back;
      - the doubling loop still going when the fuel ran out.
      `evals` is every argument f was applied to, in order. */
  ghost predicate Searched(f: real -> real, scale: real, startValue: real, cfg: GoldenConfig, fuel: nat,
                           r: Result<real>, outcome: Outcome, evals: seq<real>)
  {
    var rounds := outcome.rounds;
    var s := Halved(scale, rounds);
    AllFail(f, startValue, scale, rounds) &&
    match outcome
    case Fallback(_) =>
      r == Ok(startValue) && rounds >= 1 && AllAbove(scale, rounds - 1) && s <= EPSILON &&
      evals == Rounds(startValue, scale, rounds)
    case Exhausted(_, up) =>
      r == Err(OutOfFuel) && AllAbove(scale, rounds) && Opens(f, up, startValue, s) &&
      Doubled(f, up, startValue, s, fuel + 1) &&
      evals == Rounds(startValue, scale, rounds) + Opening(up, startValue, s) + Doubling(up, startValue, s, fuel + 1)
    case Bracketed(_, up, moves, prev, curr, next, search) =>
      var lo, hi := Min(prev, next), Max(prev, next);
      var run, n := Narrowing(f, cfg.ratio, lo, hi), cfg.Iterations(lo, hi);
      AllAbove(scale, rounds) && Opens(f, up, startValue, s) &&
      moves <= fuel && Doubled(f, up, startValue, s, moves) &&
      prev == Left(up, startValue, s, moves) && curr == Held(up, startValue, s, moves) &&
      next == Probe(up, startValue, s, moves) && !Continues(up, f(curr), f(next)) &&
      search == Rounds(startValue, scale, rounds) + Opening(up, startValue, s) + Doubling(up, startValue, s, moves + 1) &&
      r == Ok(run.Midpoint(n)) && evals == search + run.Evaluations(n) + [run.Midpoint(n)]
  }

  /** `findMin(f, scale, startValue)`: the rounds of `Scan`; on a descent the
      matching doubling loop brackets a minimum and golden section narrows
      [min(prev, next), max(prev, next)]; without one the start value comes
      back. Every argument f is applied to is returned, in Java's order of
      evaluation. A bracket found has its inner point at most both ends. */
  method FindMin(f: real -> real, scale: real, startValue: real, cfg: GoldenConfig, fuel: nat)
    returns (r: Result<real>, outcome: Outcome, evals: seq<real>)
    ensures Searched(f, scale, startValue, cfg, fuel, r, outcome, evals)
    ensures |evals| >= 2 && evals[0] == startValue && evals[1] == startValue + 2.0 * scale
    ensures r.Err? <==> outcome.Exhausted?
    ensures outcome.Bracketed? ==>
      var lo, hi := Min(outcome.prev, outcome.next), Max(outcome.prev, outcome.next);
      f(outcome.curr) <= f(outcome.prev) && f(outcome.curr) <= f(outcome.next) &&
      lo <= outcome.curr <= hi && (cfg.Valid() ==> lo <= r.value <= hi)
  {
    var direction, rounds, s, scanned := Scan(f, scale, startValue);
    assert scanned[1] == startValue + 2.0 * scale;
    if direction == Neither {
      r, outcome, evals := Ok(startValue), Fallback(rounds), scanned;
      return;
    }
    var up := direction == Up;
    var found, moves, p, c, n, steps := Double(f, up, s, startValue, fuel);
    assert scanned == Rounds(startValue, scale, rounds) + Opening(up, startValue, s);
    evals := scanned + steps;
    assert evals[..2] == scanned[..2];
    if !found {
      r, outcome := Err(OutOfFuel), Exhausted(rounds, up);
      return;
    }
    r, outcome, evals := Bracket(f, up, moves, p, c, n, rounds, evals, cfg);
  }

  /** The doubling loop of the direction found. */
  method Double(f: real -> real, up: bool, d: real, start: real, fuel: nat)
    returns (found: bool, moves: nat, prev: real, curr: real, next: real, search: seq<real>)
    ensures moves <= fuel
    ensures search == Doubling(up, start, d, moves + 1) && Doubled(f, up, start, d, moves)
    ensures found ==>
      prev == Left(up, start, d, moves) && curr == Held(up, start, d, moves) &&
      next == Probe(up, start, d, moves) && !Continues(up, f(curr), f(next)) &&
      f(curr) <= f(prev) && f(curr) <= f(next) && Min(prev, next) <= curr <= Max(prev, next)
    ensures !found ==> moves == fuel && Doubled(f, up, start, d, fuel + 1)
  {
    if up {
      found, moves, prev, curr, next, search := Forward(f, d, start, fuel);
    } else {
      found, moves, prev, curr, next, search := Backward(f, d, start, fuel);
    }
  }

  /** The narrowing that ends both directions of `findMin`: golden section on
      [min(prev, next), max(prev, next)] with f, answering its x. */
  method Bracket(f: real -> real, up: bool, moves: nat, prev: real, curr: real, next: real, rounds: nat,
                 search: seq<real>, cfg: GoldenConfig)
    returns (r: Result<real>, outcome: Outcome, evals: seq<real>)
    requires Min(prev, next) <= curr <= Max(prev, next)
    ensures outcome == Bracketed(rounds, up, moves, prev, curr, next, search)
    ensures var lo, hi := Min(prev, next), Max(prev, next);
      var run, n := Narrowing(f, cfg.ratio, lo, hi), cfg.Iterations(lo, hi);
      r == Ok(run.Midpoint(n)) &&
      (cfg.Valid() ==> lo <= r.value <= hi) &&
      evals == search + run.Evaluations(n) + [run.Midpoint(n)]
  {
    var lo, hi := Min(prev, next), Max(prev, next);
    var solver := new GoldenRatioSolver(f);
    var res, g := solver.Solve(lo, hi, cfg);
    ghost var run, n := Narrowing(f, cfg.ratio, lo, hi), cfg.Iterations(lo, hi);
    if cfg.Valid() {
      MidpointInside(run, n);
    }
    r, outcome := Ok(res.x), Bracketed(rounds, up, moves, prev, curr, next, search);
    Associative(search, run.Evaluations(n), [run.Midpoint(n)]);
    evals := search + g;
  }

  // ----- findMinOnAxis, list form -----

  /** The point a of the way from lo to hi, coordinate by coordinate:
      lo[j] (1 - a) + hi[j] a. */
  function Mix(lo: seq<real>, hi: seq<real>, a: real): (r: seq<real>)
    requires |lo| == |hi|
    ensures |r| == |lo|
  {
    seq(|lo|, j requires 0 <= j < |lo| => lo[j] * (1.0 - a) + hi[j] * a)
  }

  /** The objective of the narrowing in `findMinOnAxis`: f along the segment
      from lo (a = 0) to hi (a = 1). */
  function OnSegment(f: seq<real> -> real, lo: seq<real>, hi: seq<real>): real -> real
    requires |lo| == |hi|
  {
    a => f(Mix(lo, hi, a))
  }

  /** For a in [0, 1] every coordinate of the mixed point lies between the
      coordinates of the two ends: the point is on the segment. */
  lemma MixOnSegment(lo: seq<real>, hi: seq<real>, a: real)
    requires |lo| == |hi| && 0.0 <= a <= 1.0
    ensures forall j :: 0 <= j < |lo| ==> Min(lo[j], hi[j]) <= Mix(lo, hi, a)[j] <= Max(lo[j], hi[j])
  {
    forall j | 0 <= j < |lo|
      ensures Min(lo[j], hi[j]) <= Mix(lo, hi, a)[j] <= Max(lo[j], hi[j])
    {
      assert Mix(lo, hi, a)[j] == LowProbe(lo[j], hi[j], a);
      ConvexStep(lo[j], hi[j], a, Min(lo[j], hi[j]), Max(lo[j], hi[j]));
    }
  }

  /** Where the two ends agree, every point of the segment agrees with them. */
  lemma MixKeepsCommon(lo: seq<real>, hi: seq<real>, a: real)
    requires |lo| == |hi|
    ensures forall j :: 0 <= j < |lo| && lo[j] == hi[j] ==> Mix(lo, hi, a)[j] == lo[j]
  {
    forall j | 0 <= j < |lo| && lo[j] == hi[j]
      ensures Mix(lo, hi, a)[j] == lo[j]
    {
      assert lo[j] * (1.0 - a) + lo[j] * a == lo[j] * ((1.0 - a) + a);
    }
  }

  /** The ends of the segment: a = 0 gives lo and a = 1 gives hi. */
  lemma MixAtEnds(lo: seq<real>, hi: seq<real>)
    requires |lo| == |hi|
    ensures Mix(lo, hi, 0.0) == lo && Mix(lo, hi, 1.0) == hi
  {
    assert forall j :: 0 <= j < |lo| ==> Mix(lo, hi, 0.0)[j] == lo[j];
    assert forall j :: 0 <= j < |lo| ==> Mix(lo, hi, 1.0)[j] == hi[j];
  }

  /** How the list search ended. */
  datatype AxisOutcome =
    | AxisFallback
      // no descent before the axis length fell to EPSILON or below
    | AxisBracketed(up: bool, moves: nat, prev: seq<real>, curr: seq<real>, next: seq<real>)
      // a descent in direction `up` and `moves` moves of the doubling loop
      // found f(curr) at most f(prev) and f(next)
    | AxisExhausted(up: bool)
      // the doubling loop in direction `up` ran out of fuel
    | AxisMismatch
      // the axis and the start point differ in size


  /** Every entry divided by 2. */
  function Halve(v: seq<real>): (r: seq<real>)
    ensures |r| == |v|
  {
    seq(|v|, j requires 0 <= j < |v| => v[j] / 2.0)
  }

  /** v with every entry halved n times over. */
  function HalvedAll(v: seq<real>, n: nat): (r: seq<real>)
    ensures |r| == |v|
  {
    if n == 0 then v else Halve(HalvedAll(v, n - 1))
  }

  /** Zero stays zero however often it is halved. */
  lemma {:induction false} HalvedZero(n: nat)
    ensures Halved(0.0, n) == 0.0
  {
    if n > 0 {
      HalvedZero(n - 1);
    }
  }

  /** u agrees with v in every coordinate where the axis a is zero: a point
      reached from v by moves along a. */
  predicate Fixes(u: seq<real>, v: seq<real>, a: seq<real>)
    requires |u| == |v| == |a|
  {
    forall j :: 0 <= j < |u| && a[j] == 0.0 ==> u[j] == v[j]
  }

  /** Entry by entry, halving the vector n times halves each entry n times. */
  lemma {:induction false} HalvedAllEntries(v: seq<real>, n: nat)
    ensures forall j :: 0 <= j < |v| ==> HalvedAll(v, n)[j] == Halved(v[j], n)
  {
    if n > 0 {
      HalvedAllEntries(v, n - 1);
    }
  }

  /** Halving every entry quarters the squared length. */
  lemma QuarterLength(v: seq<real>)
    ensures SumSquares(Halve(v)) == SumSquares(v) / 4.0
  {
    assert Halve(v) == ScaleAll(v, 0.5);
    SumSquaresScaled(v, 0.5);
  }

  /** The squared length after n halvings: the first squared length halved 2 n times. */
  lemma {:induction false} HalvedAllLength(v: seq<real>, n: nat)
    ensures SumSquares(HalvedAll(v, n)) == Halved(SumSquares(v), 2 * n)
  {
    if n > 0 {
      HalvedAllLength(v, n - 1);
      QuarterLength(HalvedAll(v, n - 1));
    }
  }

  /** Halves every entry of the caller's axis in place. */
  method HalveAxis(axis: array<real>)
    modifies axis
    ensures axis[..] == Halve(old(axis[..]))
  {
    for j := 0 to axis.Length
      invariant forall k :: 0 <= k < j ==> axis[k] == old(axis[k]) / 2.0
      invariant forall k :: j <= k < axis.Length ==> axis[k] == old(axis[k])
    {
      axis[j] := axis[j] / 2.0;
    }
  }

  /** The squared length of the axis, summed entry by entry. */
  method LengthSquared(axis: array<real>) returns (length: real)
    ensures length == SumSquares(axis[..])
  {
    length := 0.0;
    for j := 0 to axis.Length
      invariant length == SumSquares(axis[..j])
    {
      assert axis[..j + 1][..j] == axis[..j];
      length := length + axis[j] * axis[j];
    }
    assert axis[..axis.Length] == axis[..];
  }

  /** While positive, the halved value only shrinks. */
  lemma {:induction false} HalvedMonotone(s: real, j: nat, k: nat)
    requires j <= k && Halved(s, k) > 0.0
    ensures Halved(s, j) >= Halved(s, k)
    decreases k - j
  {
    if j < k {
      HalvedMonotone(s, j, k - 1);
    }
  }

  /** A round of the list search along a finds f lower in neither direction. */
  predicate AxisRoundFails(f: seq<real> -> real, start: seq<real>, a: seq<real>)
    requires |start| == |a|
  {
    f(start) < f(Along(start, a, Pow2(1))) && f(start) <= f(Along(start, a, -Pow2(1)))
  }

  /** Rounds 0 .. n-1, along the axis halved 0 .. n-1 times, all failed. */
  predicate AxisAllFail(f: seq<real> -> real, start: seq<real>, axis: seq<real>, n: nat)
    requires |start| == |axis|
  {
    n == 0 || (AxisAllFail(f, start, axis, n - 1) && AxisRoundFails(f, start, HalvedAll(axis, n - 1)))
  }

  /** The axis halved 1 .. n times is each time longer than EPSILON (compared squared). */
  predicate AxisAllAbove(axis: seq<real>, n: nat) {
    n == 0 || (AxisAllAbove(axis, n - 1) && SumSquares(HalvedAll(axis, n)) > EPSILON * EPSILON)
  }

  /** The halving loop stopped after n rounds: the axis was longer than
      EPSILON after each of the first n - 1 halvings and is no longer after
      the n-th (compared squared). */
  predicate AxisFellShort(axis: seq<real>, n: nat) {
    n >= 1 && AxisAllAbove(axis, n - 1) && SumSquares(HalvedAll(axis, n)) <= EPSILON * EPSILON
  }

  lemma FallsShort(axis: seq<real>, n: nat)
    requires AxisAllAbove(axis, n) && SumSquares(HalvedAll(axis, n + 1)) <= EPSILON * EPSILON
    ensures AxisFellShort(axis, n + 1)
  {
  }

  lemma {:induction false} AxisAllFailEach(f: seq<real> -> real, start: seq<real>, axis: seq<real>, n: nat)
    requires |start| == |axis| && AxisAllFail(f, start, axis, n)
    ensures forall j :: 0 <= j < n ==> AxisRoundFails(f, start, HalvedAll(axis, j))
  {
    if n > 0 {
      AxisAllFailEach(f, start, axis, n - 1);
    }
  }

  lemma {:induction false} AxisAllAboveEach(axis: seq<real>, n: nat)
    requires AxisAllAbove(axis, n)
    ensures forall j :: 1 <= j <= n ==> SumSquares(HalvedAll(axis, j)) > EPSILON * EPSILON
  {
    if n > 0 {
      AxisAllAboveEach(axis, n - 1);
    }
  }

  /** The first comparison of the round that found a descent along a. */
  predicate AxisOpens(f: seq<real> -> real, up: bool, start: seq<real>, a: seq<real>)
    requires |start| == |a|
  {
    if up then f(start) >= f(Along(start, a, Pow2(1)))
    else f(start) < f(Along(start, a, Pow2(1))) && f(start) > f(Along(start, a, -Pow2(1)))
  }

  /** The multiple of the axis a list doubling loop steps by with index i:
      2^i forwards, -2^i backwards. */
  function Stride(up: bool, i: nat): real {
    if up then Pow2(i) else -Pow2(i)
  }

  /** The probe `next` of a list doubling loop from start along a after m
      moves: start + a Stride(up, 1), then x + a Stride(up, m) from the
      previous probe x. */
  function AxisProbe(up: bool, start: seq<real>, a: seq<real>, m: nat): (r: seq<real>)
    requires |start| == |a|
    ensures |r| == |start|
  {
    if m == 0 then Along(start, a, Stride(up, 1))
    else Along(AxisProbe(up, start, a, m - 1), a, Stride(up, m))
  }

  /** The probes of a list doubling loop lie on the line through start
      along a, at multiple Stride(up, m + 1) of the axis: the distance
      doubles with every move. */
  lemma {:induction false} AxisProbeReach(up: bool, start: seq<real>, a: seq<real>, m: nat)
    requires |start| == |a|
    ensures AxisProbe(up, start, a, m) == Along(start, a, Stride(up, m + 1))
  {
    if m > 0 {
      AxisProbeReach(up, start, a, m - 1);
      AlongAlong(start, a, Stride(up, m), Stride(up, m));
      assert Stride(up, m) + Stride(up, m) == Stride(up, m + 1);
    }
  }

  /** The point `curr` after m moves. */
  function AxisHeld(up: bool, start: seq<real>, a: seq<real>, m: nat): (r: seq<real>)
    requires |start| == |a|
    ensures |r| == |start|
  {
    if m == 0 then start else AxisProbe(up, start, a, m - 1)
  }

  /** The point `prev` after m moves. */
  function AxisLeft(up: bool, start: seq<real>, a: seq<real>, m: nat): (r: seq<real>)
    requires |start| == |a|
    ensures |r| == |start|
  {
    if m == 0 then start else AxisHeld(up, start, a, m - 1)
  }

  /** The test of the list doubling loop held at each of the first m
      positions, so the loop moved m times. */
  predicate AxisDoubled(f: seq<real> -> real, up: bool, start: seq<real>, a: seq<real>, m: nat)
    requires |start| == |a|
  {
    m == 0 ||
    (AxisDoubled(f, up, start, a, m - 1) &&
     Continues(up, f(AxisHeld(up, start, a, m - 1)), f(AxisProbe(up, start, a, m - 1))))
  }

  /** The abscissa golden section answers on the segment from prev to next. */
  function Abscissa(f: seq<real> -> real, prev: seq<real>, next: seq<real>, cfg: GoldenConfig): real
    requires |prev| == |next|
  {
    Narrowing(OnSegment(f, prev, next), cfg.ratio, 0.0, 1.0).Midpoint(cfg.Iterations(0.0, 1.0))
  }

  /** What the list `findMinOnAxis(f, axis, start)` does, in terms of its
      arguments: a size mismatch fails at once; otherwise `rounds` rounds
      that found no descent along the axis halved 0 .. rounds - 1 times,
      each followed by a halving that left the axis longer than EPSILON (all
      but the last, when no descent came); then one of
      - no descent: the start point comes back;
      - a descent in direction `up` along the axis reached, `moves` moves of
        the doubling loop while its test held, the test failing at prev,
        curr, next, and golden section along the segment from prev to next,
        whose point comes back;
      - the doubling loop still going when the fuel ran out. */
  ghost predicate AxisSearched(f: seq<real> -> real, cfg: GoldenConfig, fuel: nat, start: seq<real>, axis: seq<real>,
                               r: Result<seq<real>>, outcome: AxisOutcome, rounds: nat)
  {
    if |start| != |axis| then r == Err(SizeMismatch) && outcome == AxisMismatch && rounds == 0
    else
      var a := HalvedAll(axis, rounds);
      AxisAllFail(f, start, axis, rounds) &&
      match outcome
      case AxisMismatch => false
      case AxisFallback =>
        r == Ok(start) && AxisFellShort(axis, rounds)
      case AxisExhausted(up) =>
        r == Err(OutOfFuel) && AxisAllAbove(axis, rounds) && AxisOpens(f, up, start, a) &&
        AxisDoubled(f, up, start, a, fuel + 1)
      case AxisBracketed(up, moves, prev, curr, next) =>
        AxisAllAbove(axis, rounds) && AxisOpens(f, up, start, a) &&
        moves <= fuel && AxisDoubled(f, up, start, a, moves) &&
        prev == AxisLeft(up, start, a, moves) && curr == AxisHeld(up, start, a, moves) &&
        next == AxisProbe(up, start, a, moves) && !Continues(up, f(curr), f(next)) &&
        r == Ok(Mix(prev, next, Abscissa(f, prev, next, cfg)))
  }

  /** One round of the list `findMinOnAxis` from curr along the axis a
      (the doubling index is 1 in every round): compare f(curr) with
      f(curr + 2 a) and, if that is not lower, with f(curr - 2 a). */
  method AxisRound(f: seq<real> -> real, curr: seq<real>, a: seq<real>) returns (direction: Direction)
    requires |curr| == |a|
    ensures direction == Neither <==> AxisRoundFails(f, curr, a)
    ensures direction != Neither ==> AxisOpens(f, direction == Up, curr, a)
  {
    var next := Along(curr, a, Pow2(1));
    if f(curr) >= f(next) {
      return Up;
    }
    next := Along(curr, a, -Pow2(1));
    if f(curr) > f(next) {
      return Down;
    }
    return Neither;
  }

  /** One pass of the do-while body of the list `findMinOnAxis` before its
      exit test: a round along the axis as it stands and, when it fails, the
      halving of the axis in place and its squared length. What the exit test
      then finds is stated against the axis the rounds began with: a length
      above EPSILON^2 extends the run of long axes (and so stays within the
      halvings `bound` allows), any other length ends it. */
  method AxisStep(f: seq<real> -> real, axis: array<real>, startPoint: seq<real>,
                  ghost orig: seq<real>, ghost rounds: nat, ghost bound: nat)
    returns (direction: Direction, length: real)
    requires axis.Length == |startPoint| && axis[..] == HalvedAll(orig, rounds)
    requires AxisAllFail(f, startPoint, orig, rounds) && AxisAllAbove(orig, rounds)
    requires Halved(SumSquares(orig), bound) <= EPSILON * EPSILON
    modifies axis
    ensures direction != Neither ==>
      axis[..] == old(axis[..]) && AxisOpens(f, direction == Up, startPoint, axis[..])
    ensures direction == Neither ==>
      axis[..] == HalvedAll(orig, rounds + 1) && AxisAllFail(f, startPoint, orig, rounds + 1) &&
      length == SumSquares(axis[..])
    ensures direction == Neither && length > EPSILON * EPSILON ==>
      AxisAllAbove(orig, rounds + 1) && 2 * (rounds + 1) <= bound
    ensures direction == Neither && !(length > EPSILON * EPSILON) ==> AxisFellShort(orig, rounds + 1)
  {
    direction := AxisRound(f, startPoint, axis[..]);
    if direction != Neither {
      return direction, 0.0;
    }
    HalveAxis(axis);
    length := LengthSquared(axis);
    if length > EPSILON * EPSILON {
      AboveBounded(orig, rounds + 1, bound);
    } else {
      FallsShort(orig, rounds);
    }
  }

  /** An axis still longer than EPSILON after n halvings has been halved
      fewer times than it takes to bring its squared length below EPSILON^2:
      the bound on the rounds of ScanAxis. */
  lemma AboveBounded(orig: seq<real>, n: nat, bound: nat)
    requires Halved(SumSquares(orig), bound) <= EPSILON * EPSILON
    requires AxisAllAbove(orig, n)
    ensures 2 * n <= bound
  {
    if n > 0 {
      HalvedAllLength(orig, n);
      if 2 * n > bound {
        HalvedMonotone(SumSquares(orig), bound, 2 * n);
      }
    }
  }

  /** The rounds of the list `findMinOnAxis` up to the first descent, with
      the doubling index fixed at 1: a round that finds f lower in neither
      direction halves the caller's axis in place, and the rounds go on while
      the axis is longer than EPSILON (compared squared). */
  method ScanAxis(f: seq<real> -> real, axis: array<real>, startPoint: seq<real>)
    returns (direction: Direction, rounds: nat)
    requires axis.Length == |startPoint|
    modifies axis
    ensures axis[..] == HalvedAll(old(axis[..]), rounds)
    ensures AxisAllFail(f, startPoint, old(axis[..]), rounds)
    ensures direction == Neither ==> AxisFellShort(old(axis[..]), rounds)
    ensures direction != Neither ==>
      AxisAllAbove(old(axis[..]), rounds) && AxisOpens(f, direction == Up, startPoint, axis[..])
  {
    var curr := startPoint;
    rounds := 0;
    ghost var orig := axis[..];
    ghost var bound := HalvingsBelow(SumSquares(orig), EPSILON * EPSILON);
    while true
      invariant curr == startPoint
      invariant axis[..] == HalvedAll(orig, rounds)
      invariant AxisAllFail(f, startPoint, orig, rounds) && AxisAllAbove(orig, rounds)
      invariant 2 * rounds <= bound
      decreases bound - 2 * rounds
    {
      var length;
      direction, length := AxisStep(f, axis, curr, orig, rounds, bound);
      if direction != Neither {
        return;
      }
      rounds := rounds + 1;
      if !(length > EPSILON * EPSILON) {
        break;
      }
    }
  }

  /** The positive-direction loop of the list `findMinOnAxis`: from
      prev = curr = start and next = start + 2 a, it moves the three points
      one step on and doubles the step while f(curr) > f(next). */
  method ForwardOnAxis(f: seq<real> -> real, a: seq<real>, start: seq<real>, fuel: nat)
    returns (found: bool, moves: nat, prev: seq<real>, curr: seq<real>, next: seq<real>)
    requires |a| == |start|
    ensures moves <= fuel && AxisDoubled(f, true, start, a, moves)
    ensures found ==>
      prev == AxisLeft(true, start, a, moves) && curr == AxisHeld(true, start, a, moves) &&
      next == AxisProbe(true, start, a, moves) && !Continues(true, f(curr), f(next))
    ensures !found ==> moves == fuel && AxisDoubled(f, true, start, a, fuel + 1)
    ensures |prev| == |curr| == |next| == |start|
    ensures Fixes(prev, start, a) && Fixes(curr, start, a) && Fixes(next, start, a)
    ensures found ==> f(curr) <= f(prev) && f(curr) <= f(next)
  {
    var i: nat := 1;
    prev, curr := start, start;
    next := Along(curr, a, Pow2(i));
    moves := 0;
    var k := fuel;
    while true
      invariant i == moves + 1 && moves + k == fuel
      invariant prev == AxisLeft(true, start, a, moves) && curr == AxisHeld(true, start, a, moves)
      invariant next == AxisProbe(true, start, a, moves) && AxisDoubled(f, true, start, a, moves)
      invariant Fixes(prev, start, a) && Fixes(curr, start, a) && Fixes(next, start, a)
      invariant f(curr) <= f(prev)
      decreases k
    {
      if !(f(curr) > f(next)) {
        return true, moves, prev, curr, next;
      }
      if k == 0 {
        return false, moves, prev, curr, next;
      }
      prev := curr;
      curr := next;
      next := Along(curr, a, Pow2(i));
      i, k, moves := i + 1, k - 1, moves + 1;
    }
  }

  /** The negative-direction loop of the list `findMinOnAxis`: from
      prev = curr = start and next = start - 2 a, it moves on and doubles the
      step while f(curr) >= f(next). */
  method BackwardOnAxis(f: seq<real> -> real, a: seq<real>, start: seq<real>, fuel: nat)
    returns (found: bool, moves: nat, prev: seq<real>, curr: seq<real>, next: seq<real>)
    requires |a| == |start|
    ensures moves <= fuel && AxisDoubled(f, false, start, a, moves)
    ensures found ==>
      prev == AxisLeft(false, start, a, moves) && curr == AxisHeld(false, start, a, moves) &&
      next == AxisProbe(false, start, a, moves) && !Continues(false, f(curr), f(next))
    ensures !found ==> moves == fuel && AxisDoubled(f, false, start, a, fuel + 1)
    ensures |prev| == |curr| == |next| == |start|
    ensures Fixes(prev, start, a) && Fixes(curr, start, a) && Fixes(next, start, a)
    ensures found ==> f(curr) <= f(prev) && f(curr) < f(next)
  {
    var i: nat := 1;
    prev, curr := start, start;
    next := Along(curr, a, -Pow2(i));
    moves := 0;
    var k := fuel;
    while true
      invariant i == moves + 1 && moves + k == fuel
      invariant prev == AxisLeft(false, start, a, moves) && curr == AxisHeld(false, start, a, moves)
      invariant next == AxisProbe(false, start, a, moves) && AxisDoubled(f, false, start, a, moves)
      invariant Fixes(prev, start, a) && Fixes(curr, start, a) && Fixes(next, start, a)
      invariant f(curr) <= f(prev)
      decreases k
    {
      if !(f(curr) >= f(next)) {
        return true, moves, prev, curr, next;
      }
      if k == 0 {
        return false, moves, prev, curr, next;
      }
      prev := curr;
      curr := next;
      next := Along(curr, a, -Pow2(i));
      i, k, moves := i + 1, k - 1, moves + 1;
    }
  }

  /** The list doubling loop of the direction found. */
  method DoubleOnAxis(f: seq<real> -> real, up: bool, a: seq<real>, start: seq<real>, fuel: nat)
    returns (found: bool, moves: nat, prev: seq<real>, curr: seq<real>, next: seq<real>)
    requires |a| == |start|
    ensures moves <= fuel && AxisDoubled(f, up, start, a, moves)
    ensures found ==>
      prev == AxisLeft(up, start, a, moves) && curr == AxisHeld(up, start, a, moves) &&
      next == AxisProbe(up, start, a, moves) && !Continues(up, f(curr), f(next)) &&
      f(curr) <= f(prev) && f(curr) <= f(next)
    ensures !found ==> moves == fuel && AxisDoubled(f, up, start, a, fuel + 1)
    ensures |prev| == |curr| == |next| == |start|
    ensures Fixes(prev, start, a) && Fixes(curr, start, a) && Fixes(next, start, a)
  {
    if up {
      found, moves, prev, curr, next := ForwardOnAxis(f, a, start, fuel);
    } else {
      found, moves, prev, curr, next := BackwardOnAxis(f, a, start, fuel);
    }
  }

  /** The narrowing that ends both directions of the list `findMinOnAxis`:
      golden section of f along the segment from prev to next over [0, 1],
      answering the point of the segment at the abscissa found. */
  method BracketOnAxis(f: seq<real> -> real, prev: seq<real>, next: seq<real>, cfg: GoldenConfig)
    returns (point: seq<real>)
    requires |prev| == |next|
    ensures var n := cfg.Iterations(0.0, 1.0);
      var t := Narrowing(OnSegment(f, prev, next), cfg.ratio, 0.0, 1.0).Midpoint(n);
      point == Mix(prev, next, t) &&
      (cfg.Valid() ==>
        0.0 <= t <= 1.0 &&
        forall j :: 0 <= j < |point| ==> Min(prev[j], next[j]) <= point[j] <= Max(prev[j], next[j]))
  {
    var solver := new GoldenRatioSolver(OnSegment(f, prev, next));
    var res, _ := solver.Solve(0.0, 1.0, cfg);
    point := Mix(prev, next, res.x);
    if cfg.Valid() {
      MidpointInside(Narrowing(OnSegment(f, prev, next), cfg.ratio, 0.0, 1.0), cfg.Iterations(0.0, 1.0));
      MixOnSegment(prev, next, res.x);
    }
  }

  /** The list `findMinOnAxis(f, axis, startPoint)`: rejects an axis whose
      size differs from the start point's; otherwise runs the rounds of
      `ScanAxis`, which halve the caller's axis in place, and on a descent
      brackets along the axis and narrows by golden section along the segment
      from prev to next. Without a descent the start point comes back. Also
      returns how many times the axis was halved. */
  method FindMinOnAxis(f: seq<real> -> real, axis: array<real>, startPoint: seq<real>, cfg: GoldenConfig, fuel: nat)
    returns (r: Result<seq<real>>, outcome: AxisOutcome, rounds: nat)
    modifies axis
    ensures axis[..] == HalvedAll(old(axis[..]), rounds)
    ensures AxisSearched(f, cfg, fuel, startPoint, old(axis[..]), r, outcome, rounds)
    ensures r.Err? <==> outcome.AxisExhausted? || outcome.AxisMismatch?
    ensures r.Ok? ==> |r.value| == |startPoint| && |startPoint| == axis.Length
    ensures r.Ok? ==> Fixes(r.value, startPoint, old(axis[..]))
    ensures outcome.AxisBracketed? ==>
      var prev, curr, next := outcome.prev, outcome.curr, outcome.next;
      |prev| == |curr| == |next| == |startPoint| == axis.Length &&
      Fixes(prev, startPoint, old(axis[..])) && Fixes(curr, startPoint, old(axis[..])) &&
      Fixes(next, startPoint, old(axis[..])) &&
      f(curr) <= f(prev) && f(curr) <= f(next) &&
      (cfg.Valid() ==>
        0.0 <= Abscissa(f, prev, next, cfg) <= 1.0 &&
        forall j :: 0 <= j < |startPoint| ==> Min(prev[j], next[j]) <= r.value[j] <= Max(prev[j], next[j]))
  {
    if axis.Length != |startPoint| {
      return Err(SizeMismatch), AxisMismatch, 0;
    }
    ghost var orig := axis[..];
    var direction;
    direction, rounds := ScanAxis(f, axis, startPoint);
    if direction == Neither {
      return Ok(startPoint), AxisFallback, rounds;
    }
    r, outcome := Settle(f, direction == Up, axis[..], startPoint, cfg, fuel);
    if outcome.AxisBracketed? {
      FixesHalved(outcome.prev, startPoint, orig, rounds);
      FixesHalved(outcome.curr, startPoint, orig, rounds);
      FixesHalved(outcome.next, startPoint, orig, rounds);
      FixesHalved(r.value, startPoint, orig, rounds);
    }
  }

  /** The part of the list `findMinOnAxis` after a descent along a: the
      doubling loop of its direction, then golden section along the
      segment from prev to next. */
  method Settle(f: seq<real> -> real, up: bool, a: seq<real>, startPoint: seq<real>, cfg: GoldenConfig, fuel: nat)
    returns (r: Result<seq<real>>, outcome: AxisOutcome)
    requires |a| == |startPoint|
    ensures outcome.AxisExhausted? || outcome.AxisBracketed?
    ensures outcome.AxisExhausted? ==>
      r == Err(OutOfFuel) && outcome.up == up && AxisDoubled(f, up, startPoint, a, fuel + 1)
    ensures outcome.AxisBracketed? ==>
      var moves, prev, curr, next := outcome.moves, outcome.prev, outcome.curr, outcome.next;
      outcome.up == up && moves <= fuel && AxisDoubled(f, up, startPoint, a, moves) &&
      prev == AxisLeft(up, startPoint, a, moves) && curr == AxisHeld(up, startPoint, a, moves) &&
      next == AxisProbe(up, startPoint, a, moves) && !Continues(up, f(curr), f(next)) &&
      r == Ok(Mix(prev, next, Abscissa(f, prev, next, cfg))) &&
      Fixes(prev, startPoint, a) && Fixes(curr, startPoint, a) && Fixes(next, startPoint, a) &&
      Fixes(r.value, startPoint, a) &&
      f(curr) <= f(prev) && f(curr) <= f(next) &&
      (cfg.Valid() ==>
        0.0 <= Abscissa(f, prev, next, cfg) <= 1.0 &&
        forall j :: 0 <= j < |startPoint| ==> Min(prev[j], next[j]) <= r.value[j] <= Max(prev[j], next[j]))
  {
    var found, moves, prev, curr, next := DoubleOnAxis(f, up, a, startPoint, fuel);
    if !found {
      return Err(OutOfFuel), AxisExhausted(up);
    }
    var point := BracketOnAxis(f, prev, next, cfg);
    MixKeepsCommon(prev, next, Abscissa(f, prev, next, cfg));
    return Ok(point), AxisBracketed(up, moves, prev, curr, next);
  }

  /** Where the axis is zero, so is the halved axis: a point fixed along
      the halved axis is fixed along the axis. */
  lemma FixesHalved(u: seq<real>, v: seq<real>, axis: seq<real>, n: nat)
    requires |u| == |v| == |axis|
    ensures Fixes(u, v, HalvedAll(axis, n)) ==> Fixes(u, v, axis)
  {
    HalvedAllEntries(axis, n);
    HalvedZero(n);
  }
}
