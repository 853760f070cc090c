/** Three-component Cartesian vectors. */
module Vectors {
  import opened Indexing
  import Storage

  datatype Vector = Vector(c: Storage.Row3)

  /** Component i, the value of `operator()(i)`. */
  function At(v: Vector, i: Ix): real {
    v.c[i]
  }

  /** The vector whose component i is f(i). */
  function Build(f: Ix -> real): (r: Vector)
    ensures forall i: Ix :: At(r, i) == f(i)
  {
    Vector(seq(3, (i: int) requires 0 <= i < 3 => f(i)))
  }

  /** Vectors with the same components are equal. */
  lemma Ext(a: Vector, b: Vector)
    requires forall i: Ix :: At(a, i) == At(b, i)
    ensures a == b
  {
    assert forall i: Ix :: a.c[i] == At(a, i);
  }

  /** The default-constructed vector. */
  function Zero(): Vector {
    Build((i: Ix) => 0.0)
  }

  /** `opposite()` and unary minus. */
  function Neg(v: Vector): Vector {
    Build((i: Ix) => -At(v, i))
  }

  function Add(a: Vector, b: Vector): Vector {
    Build((i: Ix) => At(a, i) + At(b, i))
  }

  function Sub(a: Vector, b: Vector): Vector {
    Build((i: Ix) => At(a, i) - At(b, i))
  }

  function Scale(s: real, v: Vector): Vector {
    Build((i: Ix) => s * At(v, i))
  }

  function Div(v: Vector, s: real): Vector
    requires s != 0.0
  {
    Scale(1.0 / s, v)
  }

  /** Euclidean inner product. */
  function Dot(a: Vector, b: Vector): real {
    At(a, 0) * At(b, 0) + At(a, 1) * At(b, 1) + At(a, 2) * At(b, 2)
  }

  /** Right-handed cross product. */
  function Cross(a: Vector, b: Vector): Vector {
    Build((i: Ix) =>
      if i == 0 then At(a, 1) * At(b, 2) - At(a, 2) * At(b, 1)
      else if i == 1 then At(a, 2) * At(b, 0) - At(a, 0) * At(b, 2)
      else At(a, 0) * At(b, 1) - At(a, 1) * At(b, 0))
  }

  /** Negating twice gives the vector back, and a vector plus its opposite is zero. */
  lemma NegProperties(v: Vector)
    ensures Neg(Neg(v)) == v
    ensures Add(v, Neg(v)) == Zero()
    ensures Neg(v) == Scale(-1.0, v)
  {
    Ext(Neg(Neg(v)), v);
    Ext(Add(v, Neg(v)), Zero());
    Ext(Neg(v), Scale(-1.0, v));
  }

  /** Subtraction undoes addition, and addition commutes. */
  lemma AddSubProperties(a: Vector, b: Vector)
    ensures Sub(Add(a, b), b) == a
    ensures Add(a, b) == Add(b, a)
  {
    Ext(Sub(Add(a, b), b), a);
    Ext(Add(a, b), Add(b, a));
  }

  /** Division by s undoes scaling by s. */
  lemma DivUndoesScale(v: Vector, s: real)
    requires s != 0.0
    ensures Div(Scale(s, v), s) == v
  {
    forall i: Ix
      ensures At(Div(Scale(s, v), s), i) == At(v, i)
    {
      assert At(Div(Scale(s, v), s), i) == (1.0 / s) * (s * At(v, i));
    }
    Ext(Div(Scale(s, v), s), v);
  }

  /** The inner product is symmetric, linear in its second argument and
      nonnegative on the diagonal. */
  lemma DotProperties(a: Vector, b: Vector, c: Vector, s: real)
    ensures Dot(a, b) == Dot(b, a)
    ensures Dot(a, Add(b, c)) == Dot(a, b) + Dot(a, c)
    ensures Dot(a, Scale(s, b)) == s * Dot(a, b)
    ensures Dot(a, a) >= 0.0
  {
  }

  /** The cross product is anticommutative and orthogonal to both factors. */
  lemma CrossProperties(a: Vector, b: Vector)
    ensures Cross(a, b) == Neg(Cross(b, a))
    ensures Dot(Cross(a, b), a) == 0.0
    ensures Dot(Cross(a, b), b) == 0.0
  {
    Ext(Cross(a, b), Neg(Cross(b, a)));
  }
}
