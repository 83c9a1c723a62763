/**
 * The two-component vector used for positions, screen sizes and per-axis
 * scale factors. Components are real numbers, so the model states the
 * arithmetic exactly and leaves single-precision rounding out.
 *
 * The value operators (`+`, `-`, `*`, `/`, unary `-`, `==`, `!=`,
 * `NotHaveZero`) are members of the datatype `Vector2`; the compound
 * assignments that change a vector in place (`+=`, `-=`, `*=`, `/=`, `=`,
 * `zero()`) are methods of the class `Vector2Var`, a variable holding one.
 */
module Geometry {

  datatype Vector2 = Vector2(x: real, y: real) {

    /** Componentwise sum; subtracting `other` again gives back `this`. */
    function Plus(other: Vector2): (r: Vector2)
      ensures r.Minus(other) == this
    {
      Vector2(x + other.x, y + other.y)
    }

    /** Adds the scalar to both components: the sum with the vector (s, s). */
    function PlusScalar(s: real): (r: Vector2)
      ensures r == Plus(Splat(s))
    {
      Vector2(x + s, y + s)
    }

    /** Componentwise difference; adding `other` again gives back `this`. */
    function Minus(other: Vector2): (r: Vector2)
      ensures r.x + other.x == x && r.y + other.y == y
    {
      Vector2(x - other.x, y - other.y)
    }

    /** Subtracts the scalar from both components. */
    function MinusScalar(s: real): (r: Vector2)
      ensures r == Minus(Splat(s))
      ensures r.PlusScalar(s) == this
    {
      Vector2(x - s, y - s)
    }

    /** Componentwise product; guarded division by a factor without zeros undoes it. */
    function Times(other: Vector2): (r: Vector2)
      ensures r.x == x * other.x && r.y == y * other.y
      ensures other.NotHaveZero() ==> r.DividedBy(other) == this
    {
      Vector2(x * other.x, y * other.y)
    }

    /** Multiplies both components by the scalar. */
    function TimesScalar(s: real): (r: Vector2)
      ensures r == Times(Splat(s))
    {
      Vector2(x * s, y * s)
    }

    /**
     * Componentwise quotient, guarded: when either component of the divisor
     * is zero the result is the zero vector.
     */
    function DividedBy(other: Vector2): (r: Vector2)
      ensures other.NotHaveZero() ==> r.x * other.x == x && r.y * other.y == y
      ensures !other.NotHaveZero() ==> r == Zero
    {
      if other.x != 0.0 && other.y != 0.0 then Vector2(x / other.x, y / other.y)
      else Vector2(0.0, 0.0)
    }

    /** Divides both components by the scalar, guarded: division by 0 gives zero. */
    function DividedByScalar(s: real): (r: Vector2)
      ensures s != 0.0 ==> r.x * s == x && r.y * s == y
      ensures s == 0.0 ==> r == Zero
    {
      if s != 0.0 then Vector2(x / s, y / s) else Vector2(0.0, 0.0)
    }

    /** Unary minus. */
    function Negated(): (r: Vector2)
      ensures r.Plus(this) == Zero
    {
      Vector2(-x, -y)
    }

    /** `==` compares components, which is the same as equality of values. */
    function Equals(other: Vector2): (r: bool)
      ensures r <==> this == other
    {
      x == other.x && y == other.y
    }

    /** `!=` is exactly the negation of `==`. */
    function NotEquals(other: Vector2): (r: bool)
      ensures r <==> !Equals(other)
    {
      x != other.x || y != other.y
    }

    /** True iff neither component is zero. */
    function NotHaveZero(): bool
    {
      x != 0.0 && y != 0.0
    }
  }

  /** The value of a default-constructed vector. */
  const Zero := Vector2(0.0, 0.0)

  /** The vector with both components equal to `s`. */
  function Splat(s: real): Vector2
  {
    Vector2(s, s)
  }

  /** A vector has no zero component exactly when the product of its components is nonzero. */
  lemma NotHaveZeroIffProduct(v: Vector2)
    ensures v.NotHaveZero() <==> v.x * v.y != 0.0
  {
  }

  /** Vector addition is commutative, and `-` undoes `+` in both orders. */
  lemma PlusMinusInverse(a: Vector2, b: Vector2)
    ensures a.Plus(b) == b.Plus(a)
    ensures a.Plus(b).Minus(b) == a && a.Minus(b).Plus(b) == a
  {
  }

  /** Vector multiplication is commutative. */
  lemma TimesCommutes(a: Vector2, b: Vector2)
    ensures a.Times(b) == b.Times(a)
  {
  }

  /**
   * Guarded division undoes multiplication exactly when the divisor has no
   * zero component; NotHaveZero is the condition under which the guard does
   * not fire.
   */
  lemma DividedByInvertsTimes(a: Vector2, b: Vector2)
    ensures b.NotHaveZero() ==> a.Times(b).DividedBy(b) == a && a.DividedBy(b).Times(b) == a
    ensures b.NotHaveZero() <==> Splat(1.0).DividedBy(b) != Zero
  {
  }

  /** The same for the scalar overloads. */
  lemma DividedByScalarInvertsTimes(a: Vector2, s: real)
    ensures s != 0.0 ==> a.TimesScalar(s).DividedByScalar(s) == a && a.DividedByScalar(s).TimesScalar(s) == a
  {
  }

  lemma NegatedTwice(v: Vector2)
    ensures v.Negated().Negated() == v
  {
  }

  lemma MinusIsPlusNegated(a: Vector2, b: Vector2)
    ensures a.Minus(b) == a.Plus(b.Negated())
  {
  }

  /** A variable of type Vector2: the compound assignments update it in place. */
  class Vector2Var {
    var x: real
    var y: real

    function Value(): Vector2
      reads this
    {
      Vector2(x, y)
    }

    /** The default constructor gives (0, 0). */
    constructor ()
      ensures Value() == Zero
    {
      x, y := 0.0, 0.0;
    }

    constructor Of(x: real, y: real)
      ensures Value() == Vector2(x, y)
    {
      this.x, this.y := x, y;
    }

    method PlusAssign(other: Vector2)
      modifies this
      ensures Value() == old(Value()).Plus(other)
    {
      x := x + other.x;
      y := y + other.y;
    }

    method MinusAssign(other: Vector2)
      modifies this
      ensures Value() == old(Value()).Minus(other)
    {
      x := x - other.x;
      y := y - other.y;
    }

    method PlusAssignScalar(value: real)
      modifies this
      ensures Value() == old(Value()).PlusScalar(value)
    {
      x := x + value;
      y := y + value;
    }

    method MinusAssignScalar(value: real)
      modifies this
      ensures Value() == old(Value()).MinusScalar(value)
    {
      x := x - value;
      y := y - value;
    }

    method TimesAssignScalar(value: real)
      modifies this
      ensures Value() == old(Value()).TimesScalar(value)
    {
      x := x * value;
      y := y * value;
    }

    method TimesAssign(other: Vector2)
      modifies this
      ensures Value() == old(Value()).Times(other)
    {
      x := x * other.x;
      y := y * other.y;
    }

    /**
     * `/=` has no zero guard (unlike `/`), so the divisor must be nonzero;
     * then it agrees with the guarded scalar division.
     */
    method DivideAssignScalar(value: real)
      requires value != 0.0
      modifies this
      ensures Value() == old(Value()).DividedByScalar(value)
    {
      x := x / value;
      y := y / value;
    }

    method Assign(other: Vector2)
      modifies this
      ensures Value() == other
    {
      x := other.x;
      y := other.y;
    }

    /** `zero()` resets both components. */
    method SetZero()
      modifies this
      ensures Value() == Zero
    {
      x, y := 0.0, 0.0;
    }
  }
}
