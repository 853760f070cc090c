/** Skew rank-2 tensors stored as their axial vector w = (w0, w1, w2):
    the full matrix is [[0, -w2, w1], [w2, 0, -w0], [-w1, w0, 0]], so that
    it maps v to the cross product w x v. */
module SkewTensor {
  import opened Indexing
  import Storage
  import V = Vectors
  import F = RankTwoFull

  datatype Skew = Skew(w: Storage.Row3)

  /** Stored axial component k. */
  function Comp(a: Skew, k: Ix): real {
    a.w[k]
  }

  /** The tensor whose axial component k is f(k). */
  function Build(f: Ix -> real): (r: Skew)
    ensures forall k: Ix :: Comp(r, k) == f(k)
  {
    Skew(seq(3, (k: int) requires 0 <= k < 3 => f(k)))
  }

  /** Tensors with the same axial components are equal. */
  lemma Ext(a: Skew, b: Skew)
    requires forall k: Ix :: Comp(a, k) == Comp(b, k)
    ensures a == b
  {
    assert forall k: int :: 0 <= k < 3 ==> a.w[k] == Comp(a, k);
  }

  /** The default-constructed (zero) tensor. */
  function Zero(): Skew {
    Build((k: Ix) => 0.0)
  }

  /** `opposite()` and unary minus. */
  function Neg(a: Skew): Skew {
    Build((k: Ix) => -Comp(a, k))
  }

  function Add(a: Skew, b: Skew): Skew {
    Build((k: Ix) => Comp(a, k) + Comp(b, k))
  }

  function Sub(a: Skew, b: Skew): Skew {
    Build((k: Ix) => Comp(a, k) - Comp(b, k))
  }

  function Scale(s: real, a: Skew): Skew {
    Build((k: Ix) => s * Comp(a, k))
  }

  function Div(a: Skew, s: real): Skew
    requires s != 0.0
  {
    Scale(1.0 / s, a)
  }

  /** The axial vector as a `Vector`. */
  function Axial(a: Skew): V.Vector {
    V.Vector(a.w)
  }

  /** Entry (i, j) of the matrix the tensor stands for: zero on the diagonal;
      off it, plus or minus the axial component of the index not in the pair. */
  function Entry(a: Skew, i: Ix, j: Ix): real {
    if i == j then 0.0
    else
      var k := 3 - i - j;
      if i == AxialRow(k) then Comp(a, k) else -Comp(a, k)
  }

  /** Each entry is the signed axial component it holds. */
  lemma EntrySign(a: Skew, i: Ix, j: Ix)
    ensures Entry(a, i, j) == Sign(i, j) * Comp(a, Axis(i, j))
  {
  }

  /** `to_full()` and the embedding constructor `RankTwo(const Skew &)`. */
  function ToFull(a: Skew): F.RankTwo {
    F.Build((i: Ix, j: Ix) => Entry(a, i, j))
  }

  /** Entry (i, j) of the embedding, read off its axial component. */
  lemma ToFullAt(a: Skew, i: Ix, j: Ix)
    ensures F.At(ToFull(a), i, j) == Sign(i, j) * Comp(a, Axis(i, j))
  {
    EntrySign(a, i, j);
  }

  /** The constructor `Skew(const RankTwo &)`: the axial vector of the skew
      part (A - A^T) / 2. */
  function FromFull(a: F.RankTwo): Skew {
    Build((k: Ix) => (F.At(a, AxialRow(k), AxialCol(k)) - F.At(a, AxialCol(k), AxialRow(k))) / 2.0)
  }

  /** `transpose()`: the opposite tensor. */
  function Transpose(a: Skew): Skew {
    Neg(a)
  }

  /** `contract(const Skew &)`: each axial component stands for two entries. */
  function Contract(a: Skew, b: Skew): real {
    2.0 * (Comp(a, 0) * Comp(b, 0) + Comp(a, 1) * Comp(b, 1) + Comp(a, 2) * Comp(b, 2))
  }

  /** `dot(const Vector &)` and `operator*(Skew, Vector)`. */
  function Apply(a: Skew, x: V.Vector): V.Vector {
    V.Build((i: Ix) => Entry(a, i, 0) * V.At(x, 0) + Entry(a, i, 1) * V.At(x, 1) + Entry(a, i, 2) * V.At(x, 2))
  }

  /** `operator*(Vector, Skew)`: the row vector times the matrix. */
  function ApplyLeft(x: V.Vector, a: Skew): V.Vector {
    V.Build((j: Ix) => V.At(x, 0) * Entry(a, 0, j) + V.At(x, 1) * Entry(a, 1, j) + V.At(x, 2) * Entry(a, 2, j))
  }

  /** The embedding is skew: its transpose is its negation, and its diagonal is zero. */
  lemma ToFullSkew(a: Skew)
    ensures F.Transpose(ToFull(a)) == F.Neg(ToFull(a))
    ensures F.At(ToFull(a), 0, 0) == 0.0 && F.At(ToFull(a), 1, 1) == 0.0 && F.At(ToFull(a), 2, 2) == 0.0
    ensures ToFull(Transpose(a)) == F.Transpose(ToFull(a))
  {
    F.Ext(F.Transpose(ToFull(a)), F.Neg(ToFull(a)));
    F.Ext(ToFull(Transpose(a)), F.Transpose(ToFull(a)));
  }

  /** The embedding has the documented layout. */
  lemma ToFullLayout(a: Skew)
    ensures ToFull(a) == F.RankTwo([[0.0, -Comp(a, 2), Comp(a, 1)],
                                    [Comp(a, 2), 0.0, -Comp(a, 0)],
                                    [-Comp(a, 1), Comp(a, 0), 0.0]])
  {
    F.ExtLiteral(ToFull(a), F.RankTwo([[0.0, -Comp(a, 2), Comp(a, 1)],
                                      [Comp(a, 2), 0.0, -Comp(a, 0)],
                                      [-Comp(a, 1), Comp(a, 0), 0.0]]));
  }

  /** Embedding then taking the skew part gives back the axial vector. */
  lemma FromFullToFull(a: Skew)
    ensures FromFull(ToFull(a)) == a
  {
    Ext(FromFull(ToFull(a)), a);
  }

  /** Taking the skew part then embedding gives (A - A^T) / 2. */
  lemma ToFullFromFull(a: F.RankTwo)
    ensures ToFull(FromFull(a)) == F.Scale(0.5, F.Sub(a, F.Transpose(a)))
  {
    F.Ext(ToFull(FromFull(a)), F.Scale(0.5, F.Sub(a, F.Transpose(a))));
  }

  /** A skew full tensor survives the round trip through its axial vector. */
  lemma ToFullFromFullSkew(a: F.RankTwo)
    requires F.Transpose(a) == F.Neg(a)
    ensures ToFull(FromFull(a)) == a
  {
    ToFullFromFull(a);
    forall i: Ix, j: Ix
      ensures F.At(F.Scale(0.5, F.Sub(a, F.Transpose(a))), i, j) == F.At(a, i, j)
    {
      assert F.At(a, j, i) == F.At(F.Transpose(a), i, j) == -F.At(a, i, j);
    }
    F.Ext(F.Scale(0.5, F.Sub(a, F.Transpose(a))), a);
  }

  /** Taking the skew part ignores the symmetric part: A^T projects to the opposite of A. */
  lemma FromFullTranspose(a: F.RankTwo)
    ensures FromFull(F.Transpose(a)) == Neg(FromFull(a))
  {
    Ext(FromFull(F.Transpose(a)), Neg(FromFull(a)));
  }

  /** The contraction is the true double contraction of the embeddings. */
  lemma ContractAgrees(a: Skew, b: Skew)
    ensures Contract(a, b) == F.Contract(ToFull(a), ToFull(b))
  {
    ToFullLayout(a);
    ToFullLayout(b);
  }

  /** The matrix acts on a vector as the cross product with the axial vector. */
  lemma ApplyIsCross(a: Skew, x: V.Vector)
    ensures Apply(a, x) == V.Cross(Axial(a), x)
  {
    forall i: Ix
      ensures V.At(Apply(a, x), i) == V.At(V.Cross(Axial(a), x), i)
    {
      assert V.At(Axial(a), 0) == Comp(a, 0) && V.At(Axial(a), 1) == Comp(a, 1) && V.At(Axial(a), 2) == Comp(a, 2);
      assert V.At(Apply(a, x), i) == Entry(a, i, 0) * V.At(x, 0) + Entry(a, i, 1) * V.At(x, 1) + Entry(a, i, 2) * V.At(x, 2);
    }
    V.Ext(Apply(a, x), V.Cross(Axial(a), x));
  }

  /** The matrix-vector product is the full one on the embedding. */
  lemma ApplyAgrees(a: Skew, x: V.Vector)
    ensures Apply(a, x) == F.Apply(ToFull(a), x)
  {
    var m := ToFull(a);
    forall i: Ix
      ensures V.At(Apply(a, x), i) == V.At(F.Apply(m, x), i)
    {
      var e0, e1, e2 := Entry(a, i, 0), Entry(a, i, 1), Entry(a, i, 2);
      assert F.At(m, i, 0) == e0 && F.At(m, i, 1) == e1 && F.At(m, i, 2) == e2;
      assert V.At(F.Apply(m, x), i) == e0 * V.At(x, 0) + e1 * V.At(x, 1) + e2 * V.At(x, 2);
    }
    V.Ext(Apply(a, x), F.Apply(m, x));
  }

  /** From the left the matrix acts as its transpose, the opposite tensor. */
  lemma ApplyLeftIsOpposite(a: Skew, x: V.Vector)
    ensures ApplyLeft(x, a) == V.Neg(Apply(a, x))
  {
    forall j: Ix
      ensures V.At(ApplyLeft(x, a), j) == V.At(V.Neg(Apply(a, x)), j)
    {
      ApplyLeftOppositeEntry(a, x, j);
    }
    V.Ext(ApplyLeft(x, a), V.Neg(Apply(a, x)));
  }

  lemma ApplyLeftOppositeEntry(a: Skew, x: V.Vector, j: Ix)
    ensures V.At(ApplyLeft(x, a), j) == -V.At(Apply(a, x), j)
  {
    EntrySign(a, 0, j);
    EntrySign(a, j, 0);
    EntrySign(a, 1, j);
    EntrySign(a, j, 1);
    EntrySign(a, 2, j);
    EntrySign(a, j, 2);
    SignProperties(0, j, 0);
    SignProperties(1, j, 0);
    SignProperties(2, j, 0);
    NegatedSum(V.At(x, 0), V.At(x, 1), V.At(x, 2),
               Entry(a, 0, j), Entry(a, 1, j), Entry(a, 2, j),
               Entry(a, j, 0), Entry(a, j, 1), Entry(a, j, 2));
  }

  /** A row times a column whose entries are negated transposes. */
  lemma NegatedSum(x0: real, x1: real, x2: real, a0: real, a1: real, a2: real, b0: real, b1: real, b2: real)
    requires a0 == -b0 && a1 == -b1 && a2 == -b2
    ensures x0 * a0 + x1 * a1 + x2 * a2 == -(b0 * x0 + b1 * x1 + b2 * x2)
  {
  }

  /** The vector-matrix product is the full one on the embedding. */
  lemma ApplyLeftAgrees(a: Skew, x: V.Vector)
    ensures ApplyLeft(x, a) == F.ApplyLeft(x, ToFull(a))
  {
    forall j: Ix
      ensures V.At(ApplyLeft(x, a), j) == V.At(F.ApplyLeft(x, ToFull(a)), j)
    {
      ApplyLeftEntry(a, x, j);
    }
    V.Ext(ApplyLeft(x, a), F.ApplyLeft(x, ToFull(a)));
  }

  lemma ApplyLeftEntry(a: Skew, x: V.Vector, j: Ix)
    ensures V.At(ApplyLeft(x, a), j) == V.At(F.ApplyLeft(x, ToFull(a)), j)
  {
    var m := ToFull(a);
    assert F.At(m, 0, j) == Entry(a, 0, j) && F.At(m, 1, j) == Entry(a, 1, j) && F.At(m, 2, j) == Entry(a, 2, j);
  }

  /** Embedding commutes with addition and subtraction. */
  lemma ToFullAdd(a: Skew, b: Skew)
    ensures ToFull(Add(a, b)) == F.Add(ToFull(a), ToFull(b))
    ensures ToFull(Sub(a, b)) == F.Sub(ToFull(a), ToFull(b))
  {
    forall i: Ix, j: Ix
      ensures F.At(ToFull(Add(a, b)), i, j) == F.At(F.Add(ToFull(a), ToFull(b)), i, j)
      ensures F.At(ToFull(Sub(a, b)), i, j) == F.At(F.Sub(ToFull(a), ToFull(b)), i, j)
    {
      EntrySign(Add(a, b), i, j);
      EntrySign(Sub(a, b), i, j);
      EntrySign(a, i, j);
      EntrySign(b, i, j);
    }
    F.Ext(ToFull(Add(a, b)), F.Add(ToFull(a), ToFull(b)));
    F.Ext(ToFull(Sub(a, b)), F.Sub(ToFull(a), ToFull(b)));
  }

  /** Embedding commutes with negation and scaling. */
  lemma ToFullScale(a: Skew, c: real)
    ensures ToFull(Neg(a)) == F.Neg(ToFull(a))
    ensures ToFull(Scale(c, a)) == F.Scale(c, ToFull(a))
  {
    forall i: Ix, j: Ix
      ensures F.At(ToFull(Neg(a)), i, j) == F.At(F.Neg(ToFull(a)), i, j)
      ensures F.At(ToFull(Scale(c, a)), i, j) == F.At(F.Scale(c, ToFull(a)), i, j)
    {
      NegEntry(a, i, j);
      ScaleEntry(a, c, i, j);
    }
    F.Ext(ToFull(Neg(a)), F.Neg(ToFull(a)));
    F.Ext(ToFull(Scale(c, a)), F.Scale(c, ToFull(a)));
  }

  lemma NegEntry(a: Skew, i: Ix, j: Ix)
    ensures F.At(ToFull(Neg(a)), i, j) == F.At(F.Neg(ToFull(a)), i, j)
  {
    ToFullAt(Neg(a), i, j);
    ToFullAt(a, i, j);
    var sg, x := Sign(i, j), Comp(a, Axis(i, j));
    assert Comp(Neg(a), Axis(i, j)) == -x;
    assert sg * -x == -(sg * x);
  }

  lemma ScaleEntry(a: Skew, c: real, i: Ix, j: Ix)
    ensures F.At(ToFull(Scale(c, a)), i, j) == F.At(F.Scale(c, ToFull(a)), i, j)
  {
    ToFullAt(Scale(c, a), i, j);
    ToFullAt(a, i, j);
    var sg, x := Sign(i, j), Comp(a, Axis(i, j));
    assert Comp(Scale(c, a), Axis(i, j)) == c * x;
    assert sg * (c * x) == c * (sg * x);
  }

  /** Division by a nonzero scalar undoes scaling by it. */
  lemma DivUndoesScale(a: Skew, s: real)
    requires s != 0.0
    ensures Div(Scale(s, a), s) == a
  {
    forall k: Ix
      ensures Comp(Div(Scale(s, a), s), k) == Comp(a, k)
    {
      assert Comp(Div(Scale(s, a), s), k) == (1.0 / s) * (s * Comp(a, k));
    }
    Ext(Div(Scale(s, a), s), a);
  }

  /** The contraction is twice the dot product of the axial vectors. */
  lemma ContractIsDot(a: Skew, b: Skew)
    ensures Contract(a, b) == 2.0 * V.Dot(Axial(a), Axial(b))
  {
    assert forall k: Ix :: V.At(Axial(a), k) == Comp(a, k) && V.At(Axial(b), k) == Comp(b, k);
  }
}
