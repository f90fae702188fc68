/** The two-component point of `math/PointDouble.java`: a value type `Pt` holding the
    arithmetic the Java methods compute, and the mutable class `PointDouble` whose
    setters change its fields in place. */
module Points {

  /** A (domain coordinate, value) pair. */
  datatype Pt = Pt(x: real, y: real) {

    /** Componentwise sum. */
    function Add(b: Pt): Pt { Pt(x + b.x, y + b.y) }

    /** The point moved by dx along x and by dy along y. */
    function Shift(dx: real, dy: real): Pt { Pt(x + dx, y + dy) }

    /** Both components multiplied by k. */
    function Scale(k: real): Pt { Pt(k * x, k * y) }

    /** Squared Euclidean length: never negative. */
    function LengthSquared(): (r: real)
      ensures r >= 0.0
    {
      SquareSign(x);
      SquareSign(y);
      x * x + y * y
    }
  }

  lemma SquareSign(a: real)
    ensures a * a >= 0.0
  {
    if a < 0.0 {
      assert a * a == (-a) * (-a);
    }
  }

  /** Adding b and then its negation gives the point back: Add has an inverse. */
  lemma AddInverse(a: Pt, b: Pt)
    ensures a.Add(b).Add(b.Scale(-1.0)) == a
  {
  }

  /** Shift by (dx, dy) is addition of the point (dx, dy). */
  lemma ShiftIsAdd(a: Pt, dx: real, dy: real)
    ensures a.Shift(dx, dy) == a.Add(Pt(dx, dy))
  {
  }

  /** Scaling distributes over addition and composes multiplicatively. */
  lemma ScaleLaws(a: Pt, b: Pt, k: real, m: real)
    ensures a.Add(b).Scale(k) == a.Scale(k).Add(b.Scale(k))
    ensures a.Scale(k).Scale(m) == a.Scale(k * m)
  {
    assert m * (k * a.x) == (k * m) * a.x;
    assert m * (k * a.y) == (k * m) * a.y;
  }

  /** Scaling by k multiplies the squared length by k squared. */
  lemma LengthSquaredOfScale(a: Pt, k: real)
    ensures a.Scale(k).LengthSquared() == k * k * a.LengthSquared()
  {
    calc {
      a.Scale(k).LengthSquared();
      (k * a.x) * (k * a.x) + (k * a.y) * (k * a.y);
      k * k * (a.x * a.x) + k * k * (a.y * a.y);
      k * k * a.LengthSquared();
    }
  }

  /** `PointDouble`: a point whose coordinates can be overwritten. Its arithmetic
      methods allocate a new instance and leave both operands as they were. */
  class PointDouble {
    var x: real
    var y: real

    constructor (x: real, y: real)
      ensures this.x == x && this.y == y
    {
      this.x := x;
      this.y := y;
    }

    /** The coordinates as a value. */
    function Value(): Pt
      reads this
    {
      Pt(x, y)
    }

    method Copy() returns (p: PointDouble)
      ensures fresh(p)
      ensures p.Value() == Value()
    {
      p := new PointDouble(x, y);
    }

    method SetX(v: real)
      modifies this`x
      ensures x == v && y == old(y)
    {
      x := v;
    }

    method SetY(v: real)
      modifies this`y
      ensures y == v && x == old(x)
    {
      y := v;
    }

    /** `add(PointDouble b)` */
    method Add(b: PointDouble) returns (p: PointDouble)
      ensures fresh(p)
      ensures p.Value() == Value().Add(b.Value())
      ensures unchanged(this) && unchanged(b)
    {
      p := new PointDouble(x + b.x, y + b.y);
    }

    /** `add(double x, double y)` */
    method Shift(dx: real, dy: real) returns (p: PointDouble)
      ensures fresh(p)
      ensures p.Value() == Value().Shift(dx, dy)
      ensures unchanged(this)
    {
      p := new PointDouble(x + dx, y + dy);
    }

    method Scale(k: real) returns (p: PointDouble)
      ensures fresh(p)
      ensures p.Value() == Value().Scale(k)
      ensures unchanged(this)
    {
      p := new PointDouble(k * x, k * y);
    }

    function LengthSquared(): (r: real)
      reads this
      ensures r >= 0.0
    {
      Value().LengthSquared()
    }
  }
}
