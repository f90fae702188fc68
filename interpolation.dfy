/** The piecewise-linear interpolator of `math/AbstractInterpolator.java` and
    `math/LinearInterpolator.java`: a sorted private copy of the samples and a
    binary-searching `evaluate`. */
module Interpolation {
  import opened Common
  import opened Points

  ghost predicate SortedByX(s: seq<Pt>) {
    forall i, j :: 0 <= i < j < |s| ==> s[i].x <= s[j].x
  }

  ghost predicate StrictlyIncreasing(s: seq<Pt>) {
    forall i, j :: 0 <= i < j < |s| ==> s[i].x < s[j].x
  }

  /** The samples whose abscissa is k, in their order in s. */
  function AtX(s: seq<Pt>, k: real): seq<Pt> {
    if s == [] then [] else (if s[0].x == k then [s[0]] else []) + AtX(s[1..], k)
  }

  lemma {:induction false} AtXAppend(a: seq<Pt>, b: seq<Pt>, k: real)
    ensures AtX(a + b, k) == AtX(a, k) + AtX(b, k)
  {
    if a != [] {
      var head := if a[0].x == k then [a[0]] else [];
      assert (a + b)[0] == a[0];
      assert (a + b)[1..] == a[1..] + b;
      AtXAppend(a[1..], b, k);
      calc {
        AtX(a + b, k);
        head + AtX(a[1..] + b, k);
        head + (AtX(a[1..], k) + AtX(b, k));
        (head + AtX(a[1..], k)) + AtX(b, k);
        AtX(a, k) + AtX(b, k);
      }
    } else {
      assert a + b == b;
    }
  }

  /** Inserts p after every sample whose abscissa is at most p.x. */
  function Insert(s: seq<Pt>, p: Pt): (r: seq<Pt>)
    requires SortedByX(s)
    ensures SortedByX(r)
    ensures multiset(r) == multiset(s) + multiset{p}
    ensures |r| == |s| + 1
  {
    if s == [] then [p]
    else if p.x < s[0].x then [p] + s
    else
      var rest := Insert(s[1..], p);
      InsertBehindHead(s, p, rest);
      [s[0]] + rest
  }

  /** Putting the first sample in front of p inserted into the others keeps the order. */
  lemma InsertBehindHead(s: seq<Pt>, p: Pt, rest: seq<Pt>)
    requires SortedByX(s) && s != [] && s[0].x <= p.x
    requires SortedByX(rest) && multiset(rest) == multiset(s[1..]) + multiset{p}
    ensures SortedByX([s[0]] + rest)
    ensures multiset([s[0]] + rest) == multiset(s) + multiset{p}
  {
    forall i | 0 <= i < |rest|
      ensures s[0].x <= rest[i].x
    {
      assert rest[i] in multiset(rest);
    }
    assert s == [s[0]] + s[1..];
  }

  /** A stable sort by abscissa: the samples are inserted in input order, each
      after the ones already placed with an abscissa that is not larger. */
  function SortByX(s: seq<Pt>): (r: seq<Pt>)
    ensures SortedByX(r)
    ensures multiset(r) == multiset(s)
    ensures |r| == |s|
  {
    if s == [] then []
    else
      InitLast(s);
      Insert(SortByX(s[..|s| - 1]), s[|s| - 1])
  }

  lemma {:induction false} InsertKeepsOrderOfEqualKeys(s: seq<Pt>, p: Pt, k: real)
    requires SortedByX(s)
    ensures AtX(Insert(s, p), k) == AtX(s, k) + AtX([p], k)
  {
    if s == [] {
      assert [p] == [] + [p];
    } else if p.x < s[0].x {
      InsertInFront(s, p, k);
    } else {
      InsertKeepsOrderOfEqualKeys(s[1..], p, k);
      assert Insert(s, p) == [s[0]] + Insert(s[1..], p);
      InsertBehindHeadAtX(s, p, Insert(s[1..], p), k);
    }
  }

  /** The step of InsertKeepsOrderOfEqualKeys when p goes behind the first
      sample: rest stands for p inserted into the other samples. */
  lemma InsertBehindHeadAtX(s: seq<Pt>, p: Pt, rest: seq<Pt>, k: real)
    requires s != []
    requires AtX(rest, k) == AtX(s[1..], k) + AtX([p], k)
    ensures AtX([s[0]] + rest, k) == AtX(s, k) + AtX([p], k)
  {
    var first := [s[0]];
    assert s == first + s[1..];
    AtXAppend(first, rest, k);
    AtXAppend(first, s[1..], k);
    Associative(AtX(first, k), AtX(s[1..], k), AtX([p], k));
  }

  /** When p goes before every sample, the samples keyed k are those of s and then possibly p. */
  lemma InsertInFront(s: seq<Pt>, p: Pt, k: real)
    requires forall i :: 0 <= i < |s| ==> p.x < s[i].x
    ensures AtX([p] + s, k) == AtX(s, k) + AtX([p], k)
  {
    AtXAppend([p], s, k);
    if p.x == k { AtXNone(s, k); }
  }

  lemma {:induction false} AtXNone(s: seq<Pt>, k: real)
    requires forall i :: 0 <= i < |s| ==> s[i].x != k
    ensures AtX(s, k) == []
  {
    if s != [] {
      AtXNone(s[1..], k);
    }
  }

  /** The sort is stable: for every abscissa, the samples carrying it keep their input order. */
  lemma {:induction false} SortIsStable(s: seq<Pt>, k: real)
    ensures AtX(SortByX(s), k) == AtX(s, k)
  {
    if s != [] {
      var n := |s| - 1;
      SortIsStable(s[..n], k);
      InsertKeepsOrderOfEqualKeys(SortByX(s[..n]), s[n], k);
      InitLast(s);
      AtXAppend(s[..n], [s[n]], k);
    }
  }

  lemma {:induction false} InsertAtEnd(s: seq<Pt>, p: Pt)
    requires SortedByX(s)
    requires forall i :: 0 <= i < |s| ==> s[i].x <= p.x
    ensures Insert(s, p) == s + [p]
  {
    if s != [] {
      InsertAtEnd(s[1..], p);
      assert s == [s[0]] + s[1..];
    }
  }

  /** Samples that are already in order are left exactly as they are. */
  lemma {:induction false} SortOfSorted(s: seq<Pt>)
    requires SortedByX(s)
    ensures SortByX(s) == s
  {
    if s != [] {
      var n := |s| - 1;
      var init := s[..n];
      SortedInit(s);
      calc {
        SortByX(s);
        Insert(SortByX(init), s[n]);
        { SortOfSorted(init); }
        Insert(init, s[n]);
        { InsertAtEnd(init, s[n]); }
        init + [s[n]];
        { assert s == init + [s[n]]; }
        s;
      }
    }
  }

  /** Dropping the last sample of a sorted sequence leaves it sorted, and
      the last sample is not below any other. */
  lemma SortedInit(s: seq<Pt>)
    requires SortedByX(s) && s != []
    ensures SortedByX(s[..|s| - 1])
    ensures forall i :: 0 <= i < |s| - 1 ==> s[i].x <= s[|s| - 1].x
  {
    var init := s[..|s| - 1];
    forall i, j | 0 <= i < j < |init| ensures init[i].x <= init[j].x {
      assert init[i] == s[i] && init[j] == s[j];
    }
  }

  /** The value at `value` of the line through l and r; a zero-width segment
      makes the Java division produce NaN or an infinity. */
  function Lerp(l: Pt, r: Pt, value: real): Num {
    if r.x == l.x then NotFinite
    else
      var alpha := (value - l.x) / (r.x - l.x);
      Finite(alpha * r.y + (1.0 - alpha) * l.y)
  }

  /** Lerp is the point-slope form of the line through l and r. */
  lemma LerpIsLine(l: Pt, r: Pt, value: real)
    requires l.x != r.x
    ensures Lerp(l, r, value) == Finite(l.y + (r.y - l.y) / (r.x - l.x) * (value - l.x))
  {
    var d := r.x - l.x;
    var alpha := (value - l.x) / d;
    calc {
      alpha * r.y + (1.0 - alpha) * l.y;
      l.y + alpha * (r.y - l.y);
      { assert alpha * (r.y - l.y) == (r.y - l.y) / d * (value - l.x); }
      l.y + (r.y - l.y) / d * (value - l.x);
    }
  }

  /** The line passes through both of its samples. */
  lemma LerpAtSamples(l: Pt, r: Pt)
    requires l.x != r.x
    ensures Lerp(l, r, l.x) == Finite(l.y)
    ensures Lerp(l, r, r.x) == Finite(r.y)
  {
    assert (r.x - l.x) / (r.x - l.x) == 1.0;
  }

  /** Between its samples the line stays between their values. */
  lemma LerpBetween(l: Pt, r: Pt, value: real)
    requires l.x < r.x && l.x <= value <= r.x
    ensures Lerp(l, r, value).Finite?
    ensures Min(l.y, r.y) <= Lerp(l, r, value).value <= Max(l.y, r.y)
  {
    var alpha := (value - l.x) / (r.x - l.x);
    FractionInUnit(value - l.x, r.x - l.x);
    var y := alpha * r.y + (1.0 - alpha) * l.y;
    assert y == l.y + alpha * (r.y - l.y);
    if l.y <= r.y {
      ScaledWithin(alpha, r.y - l.y);
    } else {
      ScaledWithin(alpha, l.y - r.y);
      assert alpha * (r.y - l.y) == -(alpha * (l.y - r.y));
    }
  }

  lemma FractionInUnit(n: real, d: real)
    requires 0.0 <= n <= d && d > 0.0
    ensures 0.0 <= n / d <= 1.0
  {
  }

  lemma ScaledWithin(a: real, c: real)
    requires 0.0 <= a <= 1.0 && c >= 0.0
    ensures 0.0 <= a * c <= c
  {
    assert (1.0 - a) * c >= 0.0;
  }

  /** Of two samples with strictly increasing abscissae around a sample's own
      abscissa, one of them is that sample. */
  lemma EnclosingSampleIsEnd(s: seq<Pt>, i: int, k: int)
    requires StrictlyIncreasing(s)
    requires 0 <= i < |s| - 1 && 0 <= k < |s|
    requires s[i].x <= s[k].x <= s[i + 1].x
    ensures k == i || k == i + 1
  {
  }

  /** The coordinates of PointDouble objects, read in order. */
  function Values(s: seq<PointDouble>): (r: seq<Pt>)
    reads s
    ensures |r| == |s|
    ensures forall i :: 0 <= i < |s| ==> r[i] == s[i].Value()
  {
    if s == [] then [] else Values(s[..|s| - 1]) + [s[|s| - 1].Value()]
  }

  /** Appending a point appends its value. */
  lemma ValuesAppend(s: seq<PointDouble>, p: PointDouble)
    ensures Values(s + [p]) == Values(s) + [p.Value()]
  {
    assert (s + [p])[..|s|] == s;
  }

  class LinearInterpolator {
    /** The private copies of the samples, sorted by abscissa. */
    const points: seq<Pt>

    ghost predicate Valid() {
      SortedByX(points)
    }

    /** Copies every sample into a new point and sorts the copies stably by abscissa. */
    constructor (input: seq<PointDouble>)
      ensures points == SortByX(Values(input))
      ensures Valid()
      ensures |points| == |input|
      ensures multiset(points) == multiset(Values(input))
      ensures forall k :: AtX(points, k) == AtX(Values(input), k)
    {
      var copies: seq<Pt> := [];
      var i := 0;
      while i < |input|
        invariant 0 <= i <= |input|
        invariant copies == Values(input[..i])
      {
        assert input[..i + 1][..i] == input[..i];
        copies := copies + [Pt(input[i].x, input[i].y)];
        i := i + 1;
      }
      assert input[..|input|] == input;
      var sorted := SortByX(copies);
      forall k
        ensures AtX(sorted, k) == AtX(copies, k)
      {
        SortIsStable(copies, k);
      }
      points := sorted;
      new;
      assert Values(input) == copies;
    }

    /** The smallest sample abscissa. */
    function Lower(): (r: real)
      requires Valid() && |points| > 0
      ensures r == points[0].x
      ensures forall i :: 0 <= i < |points| ==> r <= points[i].x
    {
      points[0].x
    }

    /** The largest sample abscissa. */
    function Upper(): (r: real)
      requires Valid() && |points| > 0
      ensures r == points[|points| - 1].x
      ensures forall i :: 0 <= i < |points| ==> points[i].x <= r
      ensures Lower() <= r
    {
      points[|points| - 1].x
    }

    /** The codomain's lower end: 0.0 with no samples, otherwise the sentinel
        -MAX_VALUE, which lies below every finite double. */
    function LowerVal(): (r: real)
      ensures |points| == 0 ==> r == 0.0
      ensures |points| > 0 ==> r == -MAX_VALUE
      ensures forall i :: 0 <= i < |points| && -MAX_VALUE <= points[i].y ==> r <= points[i].y
    {
      if |points| == 0 then 0.0 else -MAX_VALUE
    }

    /** The codomain's upper end: 0.0 with no samples, otherwise the sentinel
        MAX_VALUE, which lies above every finite double. */
    function UpperVal(): (r: real)
      ensures |points| == 0 ==> r == 0.0
      ensures |points| > 0 ==> r == MAX_VALUE
      ensures forall i :: 0 <= i < |points| && points[i].y <= MAX_VALUE ==> points[i].y <= r
    {
      if |points| == 0 then 0.0 else MAX_VALUE
    }

    /** The interpolated value at `value`: 0 without samples, the only sample's
        value with one, the edge segments' lines outside [Lower(), Upper()], and
        otherwise the line of a segment that a binary search finds enclosing it. */
    method Evaluate(value: real) returns (r: Num)
      requires Valid()
      ensures |points| == 0 ==> r == Finite(0.0)
      ensures |points| == 1 ==> r == Finite(points[0].y)
      ensures |points| >= 2 && value <= Lower() ==> r == Lerp(points[0], points[1], value)
      ensures |points| >= 2 && Lower() < value && Upper() <= value ==>
                r == Lerp(points[|points| - 2], points[|points| - 1], value)
      ensures |points| >= 2 && Lower() < value < Upper() ==>
                exists i :: 0 <= i < |points| - 1 && points[i].x <= value <= points[i + 1].x &&
                            r == Lerp(points[i], points[i + 1], value) &&
                            (r.Finite? ==> Min(points[i].y, points[i + 1].y) <= r.value <= Max(points[i].y, points[i + 1].y))
      ensures StrictlyIncreasing(points) ==>
                forall k :: 0 <= k < |points| && points[k].x == value ==> r == Finite(points[k].y)
    {
      if |points| == 0 {
        return Finite(0.0);
      }
      var lastIndex := |points| - 1;
      if value <= Lower() {
        if |points| == 1 {
          return Finite(points[0].y);
        }
        r := Lerp(points[0], points[1], value);
        if StrictlyIncreasing(points) {
          LerpAtSamples(points[0], points[1]);
        }
        return;
      }
      if value >= Upper() {
        if |points| == 1 {
          return Finite(points[lastIndex].y);
        }
        r := Lerp(points[lastIndex - 1], points[lastIndex], value);
        if StrictlyIncreasing(points) {
          LerpAtSamples(points[lastIndex - 1], points[lastIndex]);
        }
        return;
      }
      var i := FindSegment(value);
      r := Lerp(points[i], points[i + 1], value);
      if points[i].x < points[i + 1].x {
        LerpBetween(points[i], points[i + 1], value);
      }
      if StrictlyIncreasing(points) {
        LerpAtSamples(points[i], points[i + 1]);
        forall k | 0 <= k < |points| && points[k].x == value
          ensures r == Finite(points[k].y)
        {
          EnclosingSampleIsEnd(points, i, k);
        }
      }
    }

    /** The binary search of `evaluate` for a value strictly inside the sample
        range: it always leaves through the bracketing exit. */
    method FindSegment(value: real) returns (i: int)
      requires Valid() && |points| >= 2
      requires Lower() < value < Upper()
      ensures 0 <= i < |points| - 1
      ensures points[i].x <= value <= points[i + 1].x
    {
      var lastIndex := |points| - 1;
      var i0 := 0;
      var i1 := lastIndex;
      i := (i0 + i1) / 2;
      while i0 <= i1
        invariant 0 <= i0 < lastIndex
        invariant -1 <= i1 <= lastIndex
        invariant points[i0].x < value
        invariant i1 < lastIndex ==> value < points[i1 + 1].x
        decreases i1 - i0
      {
        var m := (i0 + i1) / 2;
        if m + 1 > lastIndex {
          assert false;
          i := m;
          break;
        }
        if points[m].x > value {
          i1 := m - 1;
        } else {
          if points[m + 1].x < value {
            i0 := m + 1;
          } else {
            i := m;
            return;
          }
        }
      }
      // Leaving through the loop guard would need an empty bracket.
      assert false;
    }
  }
}
