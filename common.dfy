/** Shared constants, outcome types and small real-number helpers used by every
    part of the numerical engine. */
module Common {

  /** The convergence threshold every solver class declares (0.001). */
  const EPSILON: real := 0.001

  /** Java's `Double.MAX_VALUE`, the largest finite double, as an exact real:
      (2 - 2^-52) * 2^1023 = 2^1024 - 2^971. */
  const MAX_VALUE: real := 179769313486231570814527423731704356798070567525844996598917476803157260780028538760589558632766878171540458953514382464234321326889464182768467546703537516986049910576551282076245490090389328944075868508455133942304583236903222948165808559332123348274797826204144723168738177180919299881250404026184124858368.0

  /** What the Java code does instead of returning normally. */
  datatype Fault =
    | NegativeOrder     // IllegalArgumentException: derivative order < 0
    | MissingDimension  // IllegalArgumentException: index >= point.size()
    | SizeMismatch      // ArrayIndexOutOfBoundsException: axis and start point differ in size
    | NonFinite         // a NaN or infinite value would flow into further arithmetic
    | OutOfFuel         // a step-doubling loop did not stop within the given fuel

  datatype Result<+T> = Ok(value: T) | Err(error: Fault)

  /** A Java double that is either an ordinary finite value or one of NaN, +Infinity, -Infinity. */
  datatype Num = Finite(value: real) | NotFinite

  /** Java's `Math.pow(2, i)` for a non-negative exponent. */
  function Pow2(i: nat): (r: real)
    ensures r >= 1.0
    ensures i > 0 ==> r >= 2.0
  {
    if i == 0 then 1.0 else 2.0 * Pow2(i - 1)
  }

  function Abs(x: real): real { if x < 0.0 then -x else x }

  function Min(a: real, b: real): real { if a <= b then a else b }

  function Max(a: real, b: real): real { if a <= b then b else a }

  /** Sum of the squares of the entries: the squared Euclidean length. */
  function SumSquares(v: seq<real>): (r: real)
    ensures r >= 0.0
  {
    if v == [] then 0.0 else SumSquares(v[..|v| - 1]) + v[|v| - 1] * v[|v| - 1]
  }

  /** Squared Euclidean distance between two vectors of the same length. */
  function DistanceSquared(u: seq<real>, v: seq<real>): (r: real)
    requires |u| == |v|
    ensures r >= 0.0
  {
    if u == [] then 0.0
    else
      var d := u[|u| - 1] - v[|v| - 1];
      DistanceSquared(u[..|u| - 1], v[..|v| - 1]) + d * d
  }

  /** A vector is at distance zero from itself. */
  lemma {:induction false} DistanceToSelf(u: seq<real>)
    ensures DistanceSquared(u, u) == 0.0
  {
    if u != [] {
      DistanceToSelf(u[..|u| - 1]);
    }
  }

  /** Every entry multiplied by k. */
  function ScaleAll(v: seq<real>, k: real): (r: seq<real>)
    ensures |r| == |v|
    ensures forall j :: 0 <= j < |v| ==> r[j] == k * v[j]
  {
    seq(|v|, j requires 0 <= j < |v| => k * v[j])
  }

  /** The point `start + k * axis` of the line through `start` along `axis`. */
  function Along(start: seq<real>, axis: seq<real>, k: real): (r: seq<real>)
    requires |start| == |axis|
    ensures |r| == |start|
    ensures forall j :: 0 <= j < |r| ==> r[j] == start[j] + axis[j] * k
  {
    seq(|start|, j requires 0 <= j < |start| => start[j] + axis[j] * k)
  }

  /** Squares scale quadratically: halving every entry quarters the squared length. */
  lemma {:induction false} SumSquaresScaled(v: seq<real>, k: real)
    ensures SumSquares(ScaleAll(v, k)) == k * k * SumSquares(v)
  {
    if v != [] {
      var n := |v| - 1;
      ScaleAllInit(v, k);
      SumSquaresScaled(v[..n], k);
      var rest, x := SumSquares(v[..n]), v[n];
      calc {
        SumSquares(ScaleAll(v, k));
        k * k * rest + (k * x) * (k * x);
        { SquareScaled(k, x, rest, SumSquares(v)); }
        k * k * SumSquares(v);
      }
    }
  }

  /** Two moves along the same axis are one move by the summed multiple. */
  lemma AlongAlong(start: seq<real>, axis: seq<real>, k1: real, k2: real)
    requires |start| == |axis|
    ensures Along(Along(start, axis, k1), axis, k2) == Along(start, axis, k1 + k2)
  {
    var u, w := Along(Along(start, axis, k1), axis, k2), Along(start, axis, k1 + k2);
    forall j | 0 <= j < |u|
      ensures u[j] == w[j]
    {
      assert u[j] == start[j] + axis[j] * k1 + axis[j] * k2;
    }
  }

  lemma ScaleAllInit(v: seq<real>, k: real)
    requires v != []
    ensures ScaleAll(v, k) == ScaleAll(v[..|v| - 1], k) + [k * v[|v| - 1]]
  {
    assert forall j :: 0 <= j < |v| - 1 ==> ScaleAll(v, k)[j] == ScaleAll(v[..|v| - 1], k)[j];
  }

  lemma SquareScaled(k: real, x: real, rest: real, total: real)
    requires total == rest + x * x
    ensures k * k * rest + (k * x) * (k * x) == k * k * total
  {
  }

  lemma Associative<T>(u: seq<T>, v: seq<T>, w: seq<T>)
    ensures u + v + w == u + (v + w)
  {
  }

  /** A non-empty sequence is its prefix followed by its last element. */
  lemma InitLast<T>(s: seq<T>)
    requires s != []
    ensures s == s[..|s| - 1] + [s[|s| - 1]]
  {
  }
}
