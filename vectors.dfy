/** Two-dimensional vector algebra (physics/Vector.java).
    A Java `double` is modelled as an exact `real`; rounding is not modelled.
    The immutable `Vec` is the value a Java `Vector` object holds at one moment and is what the
    rest of the model passes around; `class Vector` models the object with its in-place mutators. */
module Vectors {

  datatype Vec = Vec(x: real, y: real)

  const Zero: Vec := Vec(0.0, 0.0)

  /** An integer pixel coordinate (java.awt.Point). */
  datatype Pixel = Pixel(x: int, y: int)

  /** Math.cos and Math.sin, which the model takes as inputs instead of computing them. */
  datatype Trig = Trig(cos: real -> real, sin: real -> real)

  /** What every caller may assume of the trigonometric inputs. */
  ghost predicate UnitCircle(t: Trig) {
    forall a: real :: t.cos(a) * t.cos(a) + t.sin(a) * t.sin(a) == 1.0
  }

  /** Vector.sum: a new vector, the inputs untouched. */
  function Plus(a: Vec, b: Vec): (r: Vec)
    ensures r.x - b.x == a.x && r.y - b.y == a.y
  {
    Vec(a.x + b.x, a.y + b.y)
  }

  /** Vector.difference: a new vector, the inputs untouched. */
  function Minus(a: Vec, b: Vec): (r: Vec)
    ensures r.x + b.x == a.x && r.y + b.y == a.y
  {
    Vec(a.x - b.x, a.y - b.y)
  }

  /** The value `multiply(s)` leaves in a vector. */
  function Scale(a: Vec, s: real): Vec {
    Vec(a.x * s, a.y * s)
  }

  /** The value `divide(s)` leaves in a vector (Java would produce infinities for s == 0). */
  function Quotient(a: Vec, s: real): (r: Vec)
    requires s != 0.0
    ensures Scale(r, s) == a
  {
    Vec(a.x / s, a.y / s)
  }

  /** The value `negate()`, that is `multiply(-1)`, leaves in a vector. */
  function Neg(a: Vec): (r: Vec)
    ensures Plus(r, a) == Zero
  {
    Scale(a, -1.0)
  }

  /** Vector.dot. */
  function Dot(a: Vec, b: Vec): real {
    a.x * b.x + a.y * b.y
  }

  /** Vector.cross(v1, v2), written in the source as v2.x * v1.y - v2.y * v1.x. */
  function Cross(a: Vec, b: Vec): real {
    b.x * a.y - b.y * a.x
  }

  /** Vector.lengthSquare. */
  function LengthSquare(a: Vec): (r: real)
    ensures r >= 0.0
    ensures a == Zero ==> r == 0.0
  {
    a.x * a.x + a.y * a.y
  }

  /** Java's `(int)` cast of a double: truncation toward zero. */
  function Trunc(r: real): (n: int)
    ensures 0.0 <= r ==> 0 <= n && n as real <= r < n as real + 1.0
    ensures r < 0.0 ==> n <= 0 && n as real - 1.0 < r <= n as real
  {
    if r >= 0.0 then r.Floor else -((-r).Floor)
  }

  /** Vector.toPoint: each component truncated toward zero. */
  function ToPoint(v: Vec): (p: Pixel)
    ensures p.x == Trunc(v.x) && p.y == Trunc(v.y)
    ensures -1.0 < v.x - p.x as real < 1.0 && -1.0 < v.y - p.y as real < 1.0
  {
    Pixel(Trunc(v.x), Trunc(v.y))
  }

  /** The vector from the origin to a point (the Vector(Point) constructor). */
  function FromPixel(p: Pixel): Vec {
    Vec(p.x as real, p.y as real)
  }

  lemma DifferenceUndoesSum(a: Vec, b: Vec)
    ensures Minus(Plus(a, b), b) == a
  {
  }

  lemma PlusZero(a: Vec)
    ensures Plus(a, Zero) == a && Plus(Zero, a) == a
  {
  }

  lemma ScaleZero(s: real)
    ensures Scale(Zero, s) == Zero
  {
  }

  lemma QuotientZero(s: real)
    requires s != 0.0
    ensures Quotient(Zero, s) == Zero
  {
  }

  lemma NegTwice(a: Vec)
    ensures Neg(Neg(a)) == a
  {
  }

  lemma DotSymmetric(a: Vec, b: Vec)
    ensures Dot(a, b) == Dot(b, a)
  {
  }

  lemma DotSelf(a: Vec)
    ensures Dot(a, a) == LengthSquare(a)
  {
  }

  lemma CrossAntisymmetric(a: Vec, b: Vec)
    ensures Cross(a, b) == -Cross(b, a)
    ensures Cross(a, a) == 0.0
  {
  }

  /** A Java Vector object: two mutable components. */
  class Vector {
    var x: real
    var y: real

    function Value(): Vec
      reads this
    {
      Vec(x, y)
    }

    constructor (x0: real, y0: real)
      ensures Value() == Vec(x0, y0)
    {
      x, y := x0, y0;
    }

    /** The copy constructor: a new object (so later changes to either leave the other alone). */
    constructor Copy(v: Vector)
      ensures Value() == v.Value()
    {
      x, y := v.x, v.y;
    }

    method AddXY(dx: real, dy: real) returns (self: Vector)
      modifies this
      ensures self == this
      ensures Value() == Plus(old(Value()), Vec(dx, dy))
    {
      x := x + dx;
      y := y + dy;
      self := this;
    }

    /** add(v); v may be this vector itself, in which case it doubles. */
    method Add(v: Vector) returns (self: Vector)
      modifies this
      ensures self == this
      ensures Value() == Plus(old(Value()), old(v.Value()))
    {
      self := AddXY(v.x, v.y);
    }

    method SubtractXY(dx: real, dy: real) returns (self: Vector)
      modifies this
      ensures self == this
      ensures Value() == Minus(old(Value()), Vec(dx, dy))
    {
      x := x - dx;
      y := y - dy;
      self := this;
    }

    method Subtract(v: Vector) returns (self: Vector)
      modifies this
      ensures self == this
      ensures Value() == Minus(old(Value()), old(v.Value()))
    {
      self := SubtractXY(v.x, v.y);
    }

    method Multiply(s: real) returns (self: Vector)
      modifies this
      ensures self == this
      ensures Value() == Scale(old(Value()), s)
    {
      x := x * s;
      y := y * s;
      self := this;
    }

    method Divide(s: real) returns (self: Vector)
      requires s != 0.0
      modifies this
      ensures self == this
      ensures Value() == Quotient(old(Value()), s)
    {
      x := x / s;
      y := y / s;
      self := this;
    }

    method Negate() returns (self: Vector)
      modifies this
      ensures self == this
      ensures Value() == Neg(old(Value()))
    {
      self := Multiply(-1.0);
    }

    /** A negated copy; this vector is left as it was. */
    method GetNegated() returns (r: Vector)
      ensures fresh(r)
      ensures r.Value() == Neg(Value())
    {
      r := new Vector.Copy(this);
      r := r.Negate();
    }
  }
}
