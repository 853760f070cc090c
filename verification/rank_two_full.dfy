/** General (full) rank-2 tensors: a 3x3 matrix stored row-major in nine
    components, with its index-notation algebra. */
module RankTwoFull {
  import opened Indexing
  import Storage
  import V = Vectors
  import opened Outcomes

  datatype RankTwo = RankTwo(m: Storage.Mat33)

  /** Entry (i, j), the value of `operator()(i, j)`. */
  function At(a: RankTwo, i: Ix, j: Ix): real {
    a.m[i][j]
  }

  /** The tensor whose entry (i, j) is f(i, j). */
  function Build(f: (Ix, Ix) -> real): (r: RankTwo)
    ensures forall i: Ix, j: Ix :: At(r, i, j) == f(i, j)
  {
    RankTwo(seq(3, (i: int) requires 0 <= i < 3 =>
      seq(3, (j: int) requires 0 <= j < 3 => f(i, j))))
  }

  /** Tensors with the same entries are equal. */
  lemma Ext(a: RankTwo, b: RankTwo)
    requires forall i: Ix, j: Ix :: At(a, i, j) == At(b, i, j)
    ensures a == b
  {
    forall i: Ix
      ensures a.m[i] == b.m[i]
    {
      assert forall j: Ix :: a.m[i][j] == At(a, i, j);
    }
  }

  /** The constructor from a nested 3x3 array: row-major layout. */
  function FromRows(rows: seq<seq<real>>): (r: RankTwo)
    requires |rows| == 3 && forall i :: 0 <= i < 3 ==> |rows[i]| == 3
    ensures forall i: Ix, j: Ix :: At(r, i, j) == rows[i][j]
  {
    Build((i: Ix, j: Ix) => rows[i][j])
  }

  /** The default-constructed tensor. */
  function Zero(): RankTwo {
    Build((i: Ix, j: Ix) => 0.0)
  }

  /** The identity matrix. */
  function Identity(): RankTwo {
    Build((i: Ix, j: Ix) => if i == j then 1.0 else 0.0)
  }

  function Neg(a: RankTwo): RankTwo {
    Build((i: Ix, j: Ix) => -At(a, i, j))
  }

  function Add(a: RankTwo, b: RankTwo): RankTwo {
    Build((i: Ix, j: Ix) => At(a, i, j) + At(b, i, j))
  }

  function Sub(a: RankTwo, b: RankTwo): RankTwo {
    Build((i: Ix, j: Ix) => At(a, i, j) - At(b, i, j))
  }

  function Scale(s: real, a: RankTwo): RankTwo {
    Build((i: Ix, j: Ix) => s * At(a, i, j))
  }

  function Div(a: RankTwo, s: real): RankTwo
    requires s != 0.0
  {
    Scale(1.0 / s, a)
  }

  function Transpose(a: RankTwo): RankTwo {
    Build((i: Ix, j: Ix) => At(a, j, i))
  }

  function Trace(a: RankTwo): real {
    At(a, 0, 0) + At(a, 1, 1) + At(a, 2, 2)
  }

  /** Matrix product: (a b)_ij = a_ik b_kj. */
  function Dot(a: RankTwo, b: RankTwo): RankTwo {
    Build((i: Ix, j: Ix) => At(a, i, 0) * At(b, 0, j) + At(a, i, 1) * At(b, 1, j) + At(a, i, 2) * At(b, 2, j))
  }

  /** Matrix times column vector: (a v)_i = a_ij v_j. */
  function Apply(a: RankTwo, v: V.Vector): V.Vector {
    V.Build((i: Ix) => At(a, i, 0) * V.At(v, 0) + At(a, i, 1) * V.At(v, 1) + At(a, i, 2) * V.At(v, 2))
  }

  /** Row vector times matrix: (v a)_j = v_i a_ij. */
  function ApplyLeft(v: V.Vector, a: RankTwo): V.Vector {
    V.Build((j: Ix) => V.At(v, 0) * At(a, 0, j) + V.At(v, 1) * At(a, 1, j) + V.At(v, 2) * At(a, 2, j))
  }

  /** Double contraction a_ij b_ij. */
  function Contract(a: RankTwo, b: RankTwo): real {
    At(a, 0, 0) * At(b, 0, 0) + At(a, 0, 1) * At(b, 0, 1) + At(a, 0, 2) * At(b, 0, 2) +
    At(a, 1, 0) * At(b, 1, 0) + At(a, 1, 1) * At(b, 1, 1) + At(a, 1, 2) * At(b, 1, 2) +
    At(a, 2, 0) * At(b, 2, 0) + At(a, 2, 1) * At(b, 2, 1) + At(a, 2, 2) * At(b, 2, 2)
  }

  /** Outer product of two vectors: entry (i, j) is a_i b_j. */
  function Outer(a: V.Vector, b: V.Vector): RankTwo {
    Build((i: Ix, j: Ix) => V.At(a, i) * V.At(b, j))
  }

  /** Determinant, by cofactor expansion along the first row. */
  function Det(a: RankTwo): real {
    At(a, 0, 0) * (At(a, 1, 1) * At(a, 2, 2) - At(a, 1, 2) * At(a, 2, 1))
    - At(a, 0, 1) * (At(a, 1, 0) * At(a, 2, 2) - At(a, 1, 2) * At(a, 2, 0))
    + At(a, 0, 2) * (At(a, 1, 0) * At(a, 2, 1) - At(a, 1, 1) * At(a, 2, 0))
  }

  /** Adjugate (transposed cofactor matrix). */
  function Adjugate(a: RankTwo): RankTwo {
    RankTwo([[At(a, 1, 1) * At(a, 2, 2) - At(a, 1, 2) * At(a, 2, 1),
              At(a, 0, 2) * At(a, 2, 1) - At(a, 0, 1) * At(a, 2, 2),
              At(a, 0, 1) * At(a, 1, 2) - At(a, 0, 2) * At(a, 1, 1)],
             [At(a, 1, 2) * At(a, 2, 0) - At(a, 1, 0) * At(a, 2, 2),
              At(a, 0, 0) * At(a, 2, 2) - At(a, 0, 2) * At(a, 2, 0),
              At(a, 0, 2) * At(a, 1, 0) - At(a, 0, 0) * At(a, 1, 2)],
             [At(a, 1, 0) * At(a, 2, 1) - At(a, 1, 1) * At(a, 2, 0),
              At(a, 0, 1) * At(a, 2, 0) - At(a, 0, 0) * At(a, 2, 1),
              At(a, 0, 0) * At(a, 1, 1) - At(a, 0, 1) * At(a, 1, 0)]])
  }

  /** The matrix inverse; a singular matrix is refused rather than inverted. */
  function Inverse(a: RankTwo): (r: Inversion<RankTwo>)
    ensures r.Singular? <==> Det(a) == 0.0
    ensures r.Regular? ==> Dot(a, r.value) == Identity() && Dot(r.value, a) == Identity()
  {
    if Det(a) == 0.0 then Singular
    else
      AdjugateProduct(a);
      var inv := Scale(1.0 / Det(a), Adjugate(a));
      DotScale(a, Adjugate(a), 1.0 / Det(a));
      ScaleDot(Adjugate(a), a, 1.0 / Det(a));
      ScaleScaleIdentity(Det(a));
      Regular(inv)
  }

  /** Cofactor expansion: a times its adjugate is det(a) times the identity, on either side. */
  lemma AdjugateProduct(a: RankTwo)
    ensures Dot(a, Adjugate(a)) == Scale(Det(a), Identity())
    ensures Dot(Adjugate(a), a) == Scale(Det(a), Identity())
  {
    AdjugateRight(a);
    AdjugateLeft(a);
  }

  /** Expansion along the rows: a adj(a) = det(a) I. */
  lemma AdjugateRight(a: RankTwo)
    ensures Dot(a, Adjugate(a)) == Scale(Det(a), Identity())
  {
    AdjugateRight00(a);
    AdjugateRight01(a);
    AdjugateRight02(a);
    AdjugateRight10(a);
    AdjugateRight11(a);
    AdjugateRight12(a);
    AdjugateRight20(a);
    AdjugateRight21(a);
    AdjugateRight22(a);
    ExtLiteral(Dot(a, Adjugate(a)), Diagonal(Det(a)));
    DiagonalIsScaledIdentity(Det(a));
  }

  lemma AdjugateRight00(a: RankTwo)
    ensures At(Dot(a, Adjugate(a)), 0, 0) == Det(a)
  {
    RowCofactors(At(a, 0, 0), At(a, 0, 1), At(a, 0, 2), At(a, 1, 0), At(a, 1, 1), At(a, 1, 2), At(a, 2, 0), At(a, 2, 1), At(a, 2, 2), Det(a));
    AdjugateRightEntry(a, 0, 0,
                       At(a, 1, 1) * At(a, 2, 2) - At(a, 1, 2) * At(a, 2, 1),
                       At(a, 1, 2) * At(a, 2, 0) - At(a, 1, 0) * At(a, 2, 2),
                       At(a, 1, 0) * At(a, 2, 1) - At(a, 1, 1) * At(a, 2, 0), Det(a));
  }

  lemma AdjugateRight01(a: RankTwo)
    ensures At(Dot(a, Adjugate(a)), 0, 1) == 0.0
  {
    RowCofactors(At(a, 0, 0), At(a, 0, 1), At(a, 0, 2), At(a, 1, 0), At(a, 1, 1), At(a, 1, 2), At(a, 2, 0), At(a, 2, 1), At(a, 2, 2), Det(a));
    AdjugateRightEntry(a, 0, 1,
                       At(a, 0, 2) * At(a, 2, 1) - At(a, 0, 1) * At(a, 2, 2),
                       At(a, 0, 0) * At(a, 2, 2) - At(a, 0, 2) * At(a, 2, 0),
                       At(a, 0, 1) * At(a, 2, 0) - At(a, 0, 0) * At(a, 2, 1), 0.0);
  }

  lemma AdjugateRight02(a: RankTwo)
    ensures At(Dot(a, Adjugate(a)), 0, 2) == 0.0
  {
    RowCofactors(At(a, 0, 0), At(a, 0, 1), At(a, 0, 2), At(a, 1, 0), At(a, 1, 1), At(a, 1, 2), At(a, 2, 0), At(a, 2, 1), At(a, 2, 2), Det(a));
    AdjugateRightEntry(a, 0, 2,
                       At(a, 0, 1) * At(a, 1, 2) - At(a, 0, 2) * At(a, 1, 1),
                       At(a, 0, 2) * At(a, 1, 0) - At(a, 0, 0) * At(a, 1, 2),
                       At(a, 0, 0) * At(a, 1, 1) - At(a, 0, 1) * At(a, 1, 0), 0.0);
  }

  lemma AdjugateRight10(a: RankTwo)
    ensures At(Dot(a, Adjugate(a)), 1, 0) == 0.0
  {
    RowCofactors(At(a, 0, 0), At(a, 0, 1), At(a, 0, 2), At(a, 1, 0), At(a, 1, 1), At(a, 1, 2), At(a, 2, 0), At(a, 2, 1), At(a, 2, 2), Det(a));
    AdjugateRightEntry(a, 1, 0,
                       At(a, 1, 1) * At(a, 2, 2) - At(a, 1, 2) * At(a, 2, 1),
                       At(a, 1, 2) * At(a, 2, 0) - At(a, 1, 0) * At(a, 2, 2),
                       At(a, 1, 0) * At(a, 2, 1) - At(a, 1, 1) * At(a, 2, 0), 0.0);
  }

  lemma AdjugateRight11(a: RankTwo)
    ensures At(Dot(a, Adjugate(a)), 1, 1) == Det(a)
  {
    RowCofactors(At(a, 0, 0), At(a, 0, 1), At(a, 0, 2), At(a, 1, 0), At(a, 1, 1), At(a, 1, 2), At(a, 2, 0), At(a, 2, 1), At(a, 2, 2), Det(a));
    AdjugateRightEntry(a, 1, 1,
                       At(a, 0, 2) * At(a, 2, 1) - At(a, 0, 1) * At(a, 2, 2),
                       At(a, 0, 0) * At(a, 2, 2) - At(a, 0, 2) * At(a, 2, 0),
                       At(a, 0, 1) * At(a, 2, 0) - At(a, 0, 0) * At(a, 2, 1), Det(a));
  }

  lemma AdjugateRight12(a: RankTwo)
    ensures At(Dot(a, Adjugate(a)), 1, 2) == 0.0
  {
    RowCofactors(At(a, 0, 0), At(a, 0, 1), At(a, 0, 2), At(a, 1, 0), At(a, 1, 1), At(a, 1, 2), At(a, 2, 0), At(a, 2, 1), At(a, 2, 2), Det(a));
    AdjugateRightEntry(a, 1, 2,
                       At(a, 0, 1) * At(a, 1, 2) - At(a, 0, 2) * At(a, 1, 1),
                       At(a, 0, 2) * At(a, 1, 0) - At(a, 0, 0) * At(a, 1, 2),
                       At(a, 0, 0) * At(a, 1, 1) - At(a, 0, 1) * At(a, 1, 0), 0.0);
  }

  lemma AdjugateRight20(a: RankTwo)
    ensures At(Dot(a, Adjugate(a)), 2, 0) == 0.0
  {
    RowCofactors(At(a, 0, 0), At(a, 0, 1), At(a, 0, 2), At(a, 1, 0), At(a, 1, 1), At(a, 1, 2), At(a, 2, 0), At(a, 2, 1), At(a, 2, 2), Det(a));
    AdjugateRightEntry(a, 2, 0,
                       At(a, 1, 1) * At(a, 2, 2) - At(a, 1, 2) * At(a, 2, 1),
                       At(a, 1, 2) * At(a, 2, 0) - At(a, 1, 0) * At(a, 2, 2),
                       At(a, 1, 0) * At(a, 2, 1) - At(a, 1, 1) * At(a, 2, 0), 0.0);
  }

  lemma AdjugateRight21(a: RankTwo)
    ensures At(Dot(a, Adjugate(a)), 2, 1) == 0.0
  {
    RowCofactors(At(a, 0, 0), At(a, 0, 1), At(a, 0, 2), At(a, 1, 0), At(a, 1, 1), At(a, 1, 2), At(a, 2, 0), At(a, 2, 1), At(a, 2, 2), Det(a));
    AdjugateRightEntry(a, 2, 1,
                       At(a, 0, 2) * At(a, 2, 1) - At(a, 0, 1) * At(a, 2, 2),
                       At(a, 0, 0) * At(a, 2, 2) - At(a, 0, 2) * At(a, 2, 0),
                       At(a, 0, 1) * At(a, 2, 0) - At(a, 0, 0) * At(a, 2, 1), 0.0);
  }

  lemma AdjugateRight22(a: RankTwo)
    ensures At(Dot(a, Adjugate(a)), 2, 2) == Det(a)
  {
    RowCofactors(At(a, 0, 0), At(a, 0, 1), At(a, 0, 2), At(a, 1, 0), At(a, 1, 1), At(a, 1, 2), At(a, 2, 0), At(a, 2, 1), At(a, 2, 2), Det(a));
    AdjugateRightEntry(a, 2, 2,
                       At(a, 0, 1) * At(a, 1, 2) - At(a, 0, 2) * At(a, 1, 1),
                       At(a, 0, 2) * At(a, 1, 0) - At(a, 0, 0) * At(a, 1, 2),
                       At(a, 0, 0) * At(a, 1, 1) - At(a, 0, 1) * At(a, 1, 0), Det(a));
  }

  /** Expansion along the columns: adj(a) a = det(a) I. */
  lemma AdjugateLeft(a: RankTwo)
    ensures Dot(Adjugate(a), a) == Scale(Det(a), Identity())
  {
    AdjugateLeft00(a);
    AdjugateLeft01(a);
    AdjugateLeft02(a);
    AdjugateLeft10(a);
    AdjugateLeft11(a);
    AdjugateLeft12(a);
    AdjugateLeft20(a);
    AdjugateLeft21(a);
    AdjugateLeft22(a);
    ExtLiteral(Dot(Adjugate(a), a), Diagonal(Det(a)));
    DiagonalIsScaledIdentity(Det(a));
  }

  lemma AdjugateLeft00(a: RankTwo)
    ensures At(Dot(Adjugate(a), a), 0, 0) == Det(a)
  {
    ColumnCofactors(At(a, 0, 0), At(a, 0, 1), At(a, 0, 2), At(a, 1, 0), At(a, 1, 1), At(a, 1, 2), At(a, 2, 0), At(a, 2, 1), At(a, 2, 2), Det(a));
    AdjugateLeftEntry(a, 0, 0,
                      At(a, 1, 1) * At(a, 2, 2) - At(a, 1, 2) * At(a, 2, 1),
                      At(a, 0, 2) * At(a, 2, 1) - At(a, 0, 1) * At(a, 2, 2),
                      At(a, 0, 1) * At(a, 1, 2) - At(a, 0, 2) * At(a, 1, 1), Det(a));
  }

  lemma AdjugateLeft01(a: RankTwo)
    ensures At(Dot(Adjugate(a), a), 0, 1) == 0.0
  {
    ColumnCofactors(At(a, 0, 0), At(a, 0, 1), At(a, 0, 2), At(a, 1, 0), At(a, 1, 1), At(a, 1, 2), At(a, 2, 0), At(a, 2, 1), At(a, 2, 2), Det(a));
    AdjugateLeftEntry(a, 0, 1,
                      At(a, 1, 1) * At(a, 2, 2) - At(a, 1, 2) * At(a, 2, 1),
                      At(a, 0, 2) * At(a, 2, 1) - At(a, 0, 1) * At(a, 2, 2),
                      At(a, 0, 1) * At(a, 1, 2) - At(a, 0, 2) * At(a, 1, 1), 0.0);
  }

  lemma AdjugateLeft02(a: RankTwo)
    ensures At(Dot(Adjugate(a), a), 0, 2) == 0.0
  {
    ColumnCofactors(At(a, 0, 0), At(a, 0, 1), At(a, 0, 2), At(a, 1, 0), At(a, 1, 1), At(a, 1, 2), At(a, 2, 0), At(a, 2, 1), At(a, 2, 2), Det(a));
    AdjugateLeftEntry(a, 0, 2,
                      At(a, 1, 1) * At(a, 2, 2) - At(a, 1, 2) * At(a, 2, 1),
                      At(a, 0, 2) * At(a, 2, 1) - At(a, 0, 1) * At(a, 2, 2),
                      At(a, 0, 1) * At(a, 1, 2) - At(a, 0, 2) * At(a, 1, 1), 0.0);
  }

  lemma AdjugateLeft10(a: RankTwo)
    ensures At(Dot(Adjugate(a), a), 1, 0) == 0.0
  {
    ColumnCofactors(At(a, 0, 0), At(a, 0, 1), At(a, 0, 2), At(a, 1, 0), At(a, 1, 1), At(a, 1, 2), At(a, 2, 0), At(a, 2, 1), At(a, 2, 2), Det(a));
    AdjugateLeftEntry(a, 1, 0,
                      At(a, 1, 2) * At(a, 2, 0) - At(a, 1, 0) * At(a, 2, 2),
                      At(a, 0, 0) * At(a, 2, 2) - At(a, 0, 2) * At(a, 2, 0),
                      At(a, 0, 2) * At(a, 1, 0) - At(a, 0, 0) * At(a, 1, 2), 0.0);
  }

  lemma AdjugateLeft11(a: RankTwo)
    ensures At(Dot(Adjugate(a), a), 1, 1) == Det(a)
  {
    ColumnCofactors(At(a, 0, 0), At(a, 0, 1), At(a, 0, 2), At(a, 1, 0), At(a, 1, 1), At(a, 1, 2), At(a, 2, 0), At(a, 2, 1), At(a, 2, 2), Det(a));
    AdjugateLeftEntry(a, 1, 1,
                      At(a, 1, 2) * At(a, 2, 0) - At(a, 1, 0) * At(a, 2, 2),
                      At(a, 0, 0) * At(a, 2, 2) - At(a, 0, 2) * At(a, 2, 0),
                      At(a, 0, 2) * At(a, 1, 0) - At(a, 0, 0) * At(a, 1, 2), Det(a));
  }

  lemma AdjugateLeft12(a: RankTwo)
    ensures At(Dot(Adjugate(a), a), 1, 2) == 0.0
  {
    ColumnCofactors(At(a, 0, 0), At(a, 0, 1), At(a, 0, 2), At(a, 1, 0), At(a, 1, 1), At(a, 1, 2), At(a, 2, 0), At(a, 2, 1), At(a, 2, 2), Det(a));
    AdjugateLeftEntry(a, 1, 2,
                      At(a, 1, 2) * At(a, 2, 0) - At(a, 1, 0) * At(a, 2, 2),
                      At(a, 0, 0) * At(a, 2, 2) - At(a, 0, 2) * At(a, 2, 0),
                      At(a, 0, 2) * At(a, 1, 0) - At(a, 0, 0) * At(a, 1, 2), 0.0);
  }

  lemma AdjugateLeft20(a: RankTwo)
    ensures At(Dot(Adjugate(a), a), 2, 0) == 0.0
  {
    ColumnCofactors(At(a, 0, 0), At(a, 0, 1), At(a, 0, 2), At(a, 1, 0), At(a, 1, 1), At(a, 1, 2), At(a, 2, 0), At(a, 2, 1), At(a, 2, 2), Det(a));
    AdjugateLeftEntry(a, 2, 0,
                      At(a, 1, 0) * At(a, 2, 1) - At(a, 1, 1) * At(a, 2, 0),
                      At(a, 0, 1) * At(a, 2, 0) - At(a, 0, 0) * At(a, 2, 1),
                      At(a, 0, 0) * At(a, 1, 1) - At(a, 0, 1) * At(a, 1, 0), 0.0);
  }

  lemma AdjugateLeft21(a: RankTwo)
    ensures At(Dot(Adjugate(a), a), 2, 1) == 0.0
  {
    ColumnCofactors(At(a, 0, 0), At(a, 0, 1), At(a, 0, 2), At(a, 1, 0), At(a, 1, 1), At(a, 1, 2), At(a, 2, 0), At(a, 2, 1), At(a, 2, 2), Det(a));
    AdjugateLeftEntry(a, 2, 1,
                      At(a, 1, 0) * At(a, 2, 1) - At(a, 1, 1) * At(a, 2, 0),
                      At(a, 0, 1) * At(a, 2, 0) - At(a, 0, 0) * At(a, 2, 1),
                      At(a, 0, 0) * At(a, 1, 1) - At(a, 0, 1) * At(a, 1, 0), 0.0);
  }

  lemma AdjugateLeft22(a: RankTwo)
    ensures At(Dot(Adjugate(a), a), 2, 2) == Det(a)
  {
    ColumnCofactors(At(a, 0, 0), At(a, 0, 1), At(a, 0, 2), At(a, 1, 0), At(a, 1, 1), At(a, 1, 2), At(a, 2, 0), At(a, 2, 1), At(a, 2, 2), Det(a));
    AdjugateLeftEntry(a, 2, 2,
                      At(a, 1, 0) * At(a, 2, 1) - At(a, 1, 1) * At(a, 2, 0),
                      At(a, 0, 1) * At(a, 2, 0) - At(a, 0, 0) * At(a, 2, 1),
                      At(a, 0, 0) * At(a, 1, 1) - At(a, 0, 1) * At(a, 1, 0), Det(a));
  }

  /** Entry (i, j) of a adj(a), given column j of the adjugate as y and the value v
      of row i of a against y. */
  lemma AdjugateRightEntry(a: RankTwo, i: Ix, j: Ix, y0: real, y1: real, y2: real, v: real)
    requires At(Adjugate(a), 0, j) == y0 && At(Adjugate(a), 1, j) == y1 && At(Adjugate(a), 2, j) == y2
    requires At(a, i, 0) * y0 + At(a, i, 1) * y1 + At(a, i, 2) * y2 == v
    ensures At(Dot(a, Adjugate(a)), i, j) == v
  {
    DotEntry(a, Adjugate(a), i, j, y0, y1, y2);
  }

  /** Entry (i, j) of adj(a) a, given row i of the adjugate as y and the value v
      of y against column j of a. */
  lemma AdjugateLeftEntry(a: RankTwo, i: Ix, j: Ix, y0: real, y1: real, y2: real, v: real)
    requires At(Adjugate(a), i, 0) == y0 && At(Adjugate(a), i, 1) == y1 && At(Adjugate(a), i, 2) == y2
    requires y0 * At(a, 0, j) + y1 * At(a, 1, j) + y2 * At(a, 2, j) == v
    ensures At(Dot(Adjugate(a), a), i, j) == v
  {
    EntryDot(Adjugate(a), a, i, j, y0, y1, y2);
  }

  /** Entry (i, j) of a product whose right factor's column j is known. */
  lemma DotEntry(a: RankTwo, b: RankTwo, i: Ix, j: Ix, y0: real, y1: real, y2: real)
    requires At(b, 0, j) == y0 && At(b, 1, j) == y1 && At(b, 2, j) == y2
    ensures At(Dot(a, b), i, j) == At(a, i, 0) * y0 + At(a, i, 1) * y1 + At(a, i, 2) * y2
  {
  }

  /** Entry (i, j) of a product whose left factor's row i is known. */
  lemma EntryDot(a: RankTwo, b: RankTwo, i: Ix, j: Ix, y0: real, y1: real, y2: real)
    requires At(a, i, 0) == y0 && At(a, i, 1) == y1 && At(a, i, 2) == y2
    ensures At(Dot(a, b), i, j) == y0 * At(b, 0, j) + y1 * At(b, 1, j) + y2 * At(b, 2, j)
  {
  }

  /** The diagonal tensor with d on the diagonal. */
  function Diagonal(d: real): RankTwo {
    RankTwo([[d, 0.0, 0.0], [0.0, d, 0.0], [0.0, 0.0, d]])
  }

  lemma DiagonalIsScaledIdentity(d: real)
    ensures Diagonal(d) == Scale(d, Identity())
  {
    Ext(Diagonal(d), Scale(d, Identity()));
  }

  /** Row i of a matrix against column j of its adjugate gives det when i = j and 0 otherwise. */
  lemma RowCofactors(a00: real, a01: real, a02: real, a10: real, a11: real, a12: real, a20: real, a21: real, a22: real, d: real)
    requires d == a00 * (a11 * a22 - a12 * a21) - a01 * (a10 * a22 - a12 * a20) + a02 * (a10 * a21 - a11 * a20)
    ensures a00 * (a11 * a22 - a12 * a21) + a01 * (a12 * a20 - a10 * a22) + a02 * (a10 * a21 - a11 * a20) == d
    ensures a00 * (a02 * a21 - a01 * a22) + a01 * (a00 * a22 - a02 * a20) + a02 * (a01 * a20 - a00 * a21) == 0.0
    ensures a00 * (a01 * a12 - a02 * a11) + a01 * (a02 * a10 - a00 * a12) + a02 * (a00 * a11 - a01 * a10) == 0.0
    ensures a10 * (a11 * a22 - a12 * a21) + a11 * (a12 * a20 - a10 * a22) + a12 * (a10 * a21 - a11 * a20) == 0.0
    ensures a10 * (a02 * a21 - a01 * a22) + a11 * (a00 * a22 - a02 * a20) + a12 * (a01 * a20 - a00 * a21) == d
    ensures a10 * (a01 * a12 - a02 * a11) + a11 * (a02 * a10 - a00 * a12) + a12 * (a00 * a11 - a01 * a10) == 0.0
    ensures a20 * (a11 * a22 - a12 * a21) + a21 * (a12 * a20 - a10 * a22) + a22 * (a10 * a21 - a11 * a20) == 0.0
    ensures a20 * (a02 * a21 - a01 * a22) + a21 * (a00 * a22 - a02 * a20) + a22 * (a01 * a20 - a00 * a21) == 0.0
    ensures a20 * (a01 * a12 - a02 * a11) + a21 * (a02 * a10 - a00 * a12) + a22 * (a00 * a11 - a01 * a10) == d
  {
  }

  /** Row i of the adjugate against column j of the matrix gives det when i = j and 0 otherwise. */
  lemma ColumnCofactors(a00: real, a01: real, a02: real, a10: real, a11: real, a12: real, a20: real, a21: real, a22: real, d: real)
    requires d == a00 * (a11 * a22 - a12 * a21) - a01 * (a10 * a22 - a12 * a20) + a02 * (a10 * a21 - a11 * a20)
    ensures (a11 * a22 - a12 * a21) * a00 + (a02 * a21 - a01 * a22) * a10 + (a01 * a12 - a02 * a11) * a20 == d
    ensures (a11 * a22 - a12 * a21) * a01 + (a02 * a21 - a01 * a22) * a11 + (a01 * a12 - a02 * a11) * a21 == 0.0
    ensures (a11 * a22 - a12 * a21) * a02 + (a02 * a21 - a01 * a22) * a12 + (a01 * a12 - a02 * a11) * a22 == 0.0
    ensures (a12 * a20 - a10 * a22) * a00 + (a00 * a22 - a02 * a20) * a10 + (a02 * a10 - a00 * a12) * a20 == 0.0
    ensures (a12 * a20 - a10 * a22) * a01 + (a00 * a22 - a02 * a20) * a11 + (a02 * a10 - a00 * a12) * a21 == d
    ensures (a12 * a20 - a10 * a22) * a02 + (a00 * a22 - a02 * a20) * a12 + (a02 * a10 - a00 * a12) * a22 == 0.0
    ensures (a10 * a21 - a11 * a20) * a00 + (a01 * a20 - a00 * a21) * a10 + (a00 * a11 - a01 * a10) * a20 == 0.0
    ensures (a10 * a21 - a11 * a20) * a01 + (a01 * a20 - a00 * a21) * a11 + (a00 * a11 - a01 * a10) * a21 == 0.0
    ensures (a10 * a21 - a11 * a20) * a02 + (a01 * a20 - a00 * a21) * a12 + (a00 * a11 - a01 * a10) * a22 == d
  {
  }

  /** Tensors that agree on the nine literal entries are equal. */
  lemma ExtLiteral(a: RankTwo, b: RankTwo)
    requires At(a, 0, 0) == At(b, 0, 0) && At(a, 0, 1) == At(b, 0, 1) && At(a, 0, 2) == At(b, 0, 2)
    requires At(a, 1, 0) == At(b, 1, 0) && At(a, 1, 1) == At(b, 1, 1) && At(a, 1, 2) == At(b, 1, 2)
    requires At(a, 2, 0) == At(b, 2, 0) && At(a, 2, 1) == At(b, 2, 1) && At(a, 2, 2) == At(b, 2, 2)
    ensures a == b
  {
    assert a.m[0] == b.m[0] && a.m[1] == b.m[1] && a.m[2] == b.m[2];
  }

  lemma DotScale(a: RankTwo, b: RankTwo, s: real)
    ensures Dot(a, Scale(s, b)) == Scale(s, Dot(a, b))
  {
    Ext(Dot(a, Scale(s, b)), Scale(s, Dot(a, b)));
  }

  lemma ScaleDot(a: RankTwo, b: RankTwo, s: real)
    ensures Dot(Scale(s, a), b) == Scale(s, Dot(a, b))
  {
    Ext(Dot(Scale(s, a), b), Scale(s, Dot(a, b)));
  }

  lemma ScaleScaleIdentity(d: real)
    requires d != 0.0
    ensures Scale(1.0 / d, Scale(d, Identity())) == Identity()
  {
    var l := Scale(1.0 / d, Scale(d, Identity()));
    forall i: Ix, j: Ix
      ensures At(l, i, j) == At(Identity(), i, j)
    {
      assert At(l, i, j) == (1.0 / d) * (d * At(Identity(), i, j));
    }
    Ext(l, Identity());
  }

  /** Negation is scaling by -1 and undoes itself; subtraction undoes addition. */
  lemma AddNegProperties(a: RankTwo, b: RankTwo)
    ensures Neg(a) == Scale(-1.0, a)
    ensures Neg(Neg(a)) == a
    ensures Add(a, b) == Add(b, a)
    ensures Sub(Add(a, b), b) == a
    ensures Sub(a, b) == Add(a, Neg(b))
  {
    Ext(Neg(a), Scale(-1.0, a));
    Ext(Neg(Neg(a)), a);
    Ext(Add(a, b), Add(b, a));
    Ext(Sub(Add(a, b), b), a);
    Ext(Sub(a, b), Add(a, Neg(b)));
  }

  /** Division by a nonzero scalar undoes scaling by it. */
  lemma DivUndoesScale(a: RankTwo, s: real)
    requires s != 0.0
    ensures Div(Scale(s, a), s) == a
  {
    forall i: Ix, j: Ix
      ensures At(Div(Scale(s, a), s), i, j) == At(a, i, j)
    {
      assert At(Div(Scale(s, a), s), i, j) == (1.0 / s) * (s * At(a, i, j));
    }
    Ext(Div(Scale(s, a), s), a);
  }

  /** Transposition is an involution that keeps the trace and reverses products. */
  lemma TransposeProperties(a: RankTwo, b: RankTwo)
    ensures Transpose(Transpose(a)) == a
    ensures Trace(Transpose(a)) == Trace(a)
    ensures Transpose(Dot(a, b)) == Dot(Transpose(b), Transpose(a))
    ensures Transpose(Add(a, b)) == Add(Transpose(a), Transpose(b))
  {
    TransposeInvolution(a);
    TransposeOfDot(a, b);
    TransposeOfAdd(a, b);
  }

  lemma TransposeInvolution(a: RankTwo)
    ensures Transpose(Transpose(a)) == a
  {
    Ext(Transpose(Transpose(a)), a);
  }

  lemma TransposeOfDot(a: RankTwo, b: RankTwo)
    ensures Transpose(Dot(a, b)) == Dot(Transpose(b), Transpose(a))
  {
    Ext(Transpose(Dot(a, b)), Dot(Transpose(b), Transpose(a)));
  }

  lemma TransposeOfAdd(a: RankTwo, b: RankTwo)
    ensures Transpose(Add(a, b)) == Add(Transpose(a), Transpose(b))
  {
    Ext(Transpose(Add(a, b)), Add(Transpose(a), Transpose(b)));
  }

  /** A negated factor negates the matrix product. */
  lemma DotNeg(a: RankTwo, b: RankTwo)
    ensures Dot(Neg(a), b) == Neg(Dot(a, b))
    ensures Dot(a, Neg(b)) == Neg(Dot(a, b))
  {
    DotNegLeft(a, b);
    DotNegRight(a, b);
  }

  lemma DotNegLeft(a: RankTwo, b: RankTwo)
    ensures Dot(Neg(a), b) == Neg(Dot(a, b))
  {
    Ext(Dot(Neg(a), b), Neg(Dot(a, b)));
  }

  lemma DotNegRight(a: RankTwo, b: RankTwo)
    ensures Dot(a, Neg(b)) == Neg(Dot(a, b))
  {
    Ext(Dot(a, Neg(b)), Neg(Dot(a, b)));
  }

  /** The identity is neutral for the matrix product and for the matrix-vector product. */
  lemma IdentityNeutral(a: RankTwo, v: V.Vector)
    ensures Dot(a, Identity()) == a
    ensures Dot(Identity(), a) == a
    ensures Apply(Identity(), v) == v
    ensures Trace(Identity()) == 3.0
  {
    IdentityRight(a);
    IdentityLeft(a);
    IdentityApply(v);
  }

  lemma IdentityRight(a: RankTwo)
    ensures Dot(a, Identity()) == a
  {
    var e := Identity();
    forall i: Ix, j: Ix
      ensures At(Dot(a, e), i, j) == At(a, i, j)
    {
      IdentityColumn(At(a, i, 0), At(a, i, 1), At(a, i, 2), At(e, 0, j), At(e, 1, j), At(e, 2, j), j);
    }
    Ext(Dot(a, e), a);
  }

  lemma IdentityLeft(a: RankTwo)
    ensures Dot(Identity(), a) == a
  {
    var e := Identity();
    forall i: Ix, j: Ix
      ensures At(Dot(e, a), i, j) == At(a, i, j)
    {
      IdentityColumn(At(a, 0, j), At(a, 1, j), At(a, 2, j), At(e, i, 0), At(e, i, 1), At(e, i, 2), i);
    }
    Ext(Dot(e, a), a);
  }

  lemma IdentityApply(v: V.Vector)
    ensures Apply(Identity(), v) == v
  {
    var e := Identity();
    forall i: Ix
      ensures V.At(Apply(e, v), i) == V.At(v, i)
    {
      IdentityColumn(V.At(v, 0), V.At(v, 1), V.At(v, 2), At(e, i, 0), At(e, i, 1), At(e, i, 2), i);
    }
    V.Ext(Apply(e, v), v);
  }

  /** Picking component j of (x0, x1, x2) against the j-th unit vector. */
  lemma IdentityColumn(x0: real, x1: real, x2: real, e0: real, e1: real, e2: real, j: Ix)
    requires e0 == (if j == 0 then 1.0 else 0.0)
    requires e1 == (if j == 1 then 1.0 else 0.0)
    requires e2 == (if j == 2 then 1.0 else 0.0)
    ensures x0 * e0 + x1 * e1 + x2 * e2 == (if j == 0 then x0 else if j == 1 then x1 else x2)
    ensures e0 * x0 + e1 * x1 + e2 * x2 == (if j == 0 then x0 else if j == 1 then x1 else x2)
  {
  }

  /** The double contraction is the trace of a^T b, and is symmetric. */
  lemma ContractIsTrace(a: RankTwo, b: RankTwo)
    ensures Contract(a, b) == Trace(Dot(Transpose(a), b))
    ensures Contract(a, b) == Contract(b, a)
    ensures Contract(a, Identity()) == Trace(a)
  {
  }

  /** A row vector times a matrix is the transposed matrix times the vector. */
  lemma ApplyLeftIsTransposed(v: V.Vector, a: RankTwo)
    ensures ApplyLeft(v, a) == Apply(Transpose(a), v)
  {
    V.Ext(ApplyLeft(v, a), Apply(Transpose(a), v));
  }

  /** The matrix product acts on vectors as composition. */
  lemma DotApply(a: RankTwo, b: RankTwo, v: V.Vector)
    ensures Apply(Dot(a, b), v) == Apply(a, Apply(b, v))
  {
    forall i: Ix
      ensures V.At(Apply(Dot(a, b), v), i) == V.At(Apply(a, Apply(b, v)), i)
    {
      DotApplyEntry(a, b, v, i);
    }
    V.Ext(Apply(Dot(a, b), v), Apply(a, Apply(b, v)));
  }

  lemma DotApplyEntry(a: RankTwo, b: RankTwo, v: V.Vector, i: Ix)
    ensures V.At(Apply(Dot(a, b), v), i) == V.At(Apply(a, Apply(b, v)), i)
  {
    DotThenApply(a, b, v, i);
    ApplyThenApply(a, b, v, i);
    Regroup(At(a, i, 0), At(a, i, 1), At(a, i, 2),
            At(b, 0, 0), At(b, 0, 1), At(b, 0, 2),
            At(b, 1, 0), At(b, 1, 1), At(b, 1, 2),
            At(b, 2, 0), At(b, 2, 1), At(b, 2, 2),
            V.At(v, 0), V.At(v, 1), V.At(v, 2));
  }

  lemma DotThenApply(a: RankTwo, b: RankTwo, v: V.Vector, i: Ix)
    ensures V.At(Apply(Dot(a, b), v), i)
         == (At(a, i, 0) * At(b, 0, 0) + At(a, i, 1) * At(b, 1, 0) + At(a, i, 2) * At(b, 2, 0)) * V.At(v, 0)
          + (At(a, i, 0) * At(b, 0, 1) + At(a, i, 1) * At(b, 1, 1) + At(a, i, 2) * At(b, 2, 1)) * V.At(v, 1)
          + (At(a, i, 0) * At(b, 0, 2) + At(a, i, 1) * At(b, 1, 2) + At(a, i, 2) * At(b, 2, 2)) * V.At(v, 2)
  {
    var e0 := At(a, i, 0) * At(b, 0, 0) + At(a, i, 1) * At(b, 1, 0) + At(a, i, 2) * At(b, 2, 0);
    var e1 := At(a, i, 0) * At(b, 0, 1) + At(a, i, 1) * At(b, 1, 1) + At(a, i, 2) * At(b, 2, 1);
    var e2 := At(a, i, 0) * At(b, 0, 2) + At(a, i, 1) * At(b, 1, 2) + At(a, i, 2) * At(b, 2, 2);
    DotRow(a, b, i, e0, e1, e2);
    ApplyOfRow(Dot(a, b), v, i, e0, e1, e2);
  }

  /** Row i of a matrix product, as values. */
  lemma DotRow(a: RankTwo, b: RankTwo, i: Ix, e0: real, e1: real, e2: real)
    requires e0 == At(a, i, 0) * At(b, 0, 0) + At(a, i, 1) * At(b, 1, 0) + At(a, i, 2) * At(b, 2, 0)
    requires e1 == At(a, i, 0) * At(b, 0, 1) + At(a, i, 1) * At(b, 1, 1) + At(a, i, 2) * At(b, 2, 1)
    requires e2 == At(a, i, 0) * At(b, 0, 2) + At(a, i, 1) * At(b, 1, 2) + At(a, i, 2) * At(b, 2, 2)
    ensures At(Dot(a, b), i, 0) == e0 && At(Dot(a, b), i, 1) == e1 && At(Dot(a, b), i, 2) == e2
  {
  }

  /** Entry i of a matrix-vector product, from the values of row i. */
  lemma ApplyOfRow(m: RankTwo, v: V.Vector, i: Ix, e0: real, e1: real, e2: real)
    requires At(m, i, 0) == e0 && At(m, i, 1) == e1 && At(m, i, 2) == e2
    ensures V.At(Apply(m, v), i) == e0 * V.At(v, 0) + e1 * V.At(v, 1) + e2 * V.At(v, 2)
  {
  }

  lemma ApplyThenApply(a: RankTwo, b: RankTwo, v: V.Vector, i: Ix)
    ensures V.At(Apply(a, Apply(b, v)), i)
         == At(a, i, 0) * (At(b, 0, 0) * V.At(v, 0) + At(b, 0, 1) * V.At(v, 1) + At(b, 0, 2) * V.At(v, 2))
          + At(a, i, 1) * (At(b, 1, 0) * V.At(v, 0) + At(b, 1, 1) * V.At(v, 1) + At(b, 1, 2) * V.At(v, 2))
          + At(a, i, 2) * (At(b, 2, 0) * V.At(v, 0) + At(b, 2, 1) * V.At(v, 1) + At(b, 2, 2) * V.At(v, 2))
  {
  }

  /** Associativity of a row times a 3x3 matrix times a column, on plain reals. */
  lemma Regroup(a0: real, a1: real, a2: real,
                b00: real, b01: real, b02: real, b10: real, b11: real, b12: real,
                b20: real, b21: real, b22: real, x: real, y: real, z: real)
    ensures (a0 * b00 + a1 * b10 + a2 * b20) * x + (a0 * b01 + a1 * b11 + a2 * b21) * y + (a0 * b02 + a1 * b12 + a2 * b22) * z
         == a0 * (b00 * x + b01 * y + b02 * z) + a1 * (b10 * x + b11 * y + b12 * z) + a2 * (b20 * x + b21 * y + b22 * z)
  {
  }

  /** The outer product a b^T maps v to (b . v) a. */
  lemma OuterApply(a: V.Vector, b: V.Vector, v: V.Vector)
    ensures Apply(Outer(a, b), v) == V.Scale(V.Dot(b, v), a)
    ensures Trace(Outer(a, b)) == V.Dot(a, b)
  {
    forall i: Ix
      ensures V.At(Apply(Outer(a, b), v), i) == V.At(V.Scale(V.Dot(b, v), a), i)
    {
      OuterApplyEntry(a, b, v, i);
    }
    V.Ext(Apply(Outer(a, b), v), V.Scale(V.Dot(b, v), a));
  }

  lemma OuterApplyEntry(a: V.Vector, b: V.Vector, v: V.Vector, i: Ix)
    ensures V.At(Apply(Outer(a, b), v), i) == V.At(V.Scale(V.Dot(b, v), a), i)
  {
    var ai, b0, b1, b2, v0, v1, v2 := V.At(a, i), V.At(b, 0), V.At(b, 1), V.At(b, 2), V.At(v, 0), V.At(v, 1), V.At(v, 2);
    assert V.At(Apply(Outer(a, b), v), i) == ai * b0 * v0 + ai * b1 * v1 + ai * b2 * v2;
    assert V.At(V.Scale(V.Dot(b, v), a), i) == (b0 * v0 + b1 * v1 + b2 * v2) * ai;
  }

  /** The adjugate of a symmetric matrix is symmetric, and so is the
      inverse of an invertible one. */
  lemma SymmetricAdjugate(a: RankTwo)
    requires Transpose(a) == a
    ensures Transpose(Adjugate(a)) == Adjugate(a)
    ensures Det(a) != 0.0 ==> Inverse(a).Regular? && Transpose(Inverse(a).value) == Inverse(a).value
  {
    assert At(a, 0, 1) == At(Transpose(a), 1, 0) == At(a, 1, 0);
    assert At(a, 0, 2) == At(Transpose(a), 2, 0) == At(a, 2, 0);
    assert At(a, 1, 2) == At(Transpose(a), 2, 1) == At(a, 2, 1);
    ExtLiteral(Transpose(Adjugate(a)), Adjugate(a));
    if Det(a) != 0.0 {
      ScaleTranspose(1.0 / Det(a), Adjugate(a));
    }
  }

  /** Scaling keeps a symmetric matrix symmetric. */
  lemma ScaleTranspose(s: real, a: RankTwo)
    ensures Transpose(Scale(s, a)) == Scale(s, Transpose(a))
  {
    Ext(Transpose(Scale(s, a)), Scale(s, Transpose(a)));
  }

  /** Double contraction is linear in its second operand. */
  lemma ContractAddRight(a: RankTwo, b: RankTwo, c: RankTwo)
    ensures Contract(a, Add(b, c)) == Contract(a, b) + Contract(a, c)
  {
  }

  /** Double contraction pulls scalars out of its second operand. */
  lemma ContractScaleRight(a: RankTwo, b: RankTwo, s: real)
    ensures Contract(a, Scale(s, b)) == s * Contract(a, b)
  {
  }

  /** Double contraction pulls scalars out of both operands. */
  lemma ContractScaleBoth(c: real, a: RankTwo, d: real, b: RankTwo)
    ensures Contract(Scale(c, a), Scale(d, b)) == c * d * Contract(a, b)
  {
    calc {
      Contract(Scale(c, a), Scale(d, b));
      { ContractScaleRight(Scale(c, a), b, d); }
      d * Contract(Scale(c, a), b);
      { ContractScaleLeft(c, a, b); }
      d * (c * Contract(a, b));
      { ScalarPair(c, d, Contract(a, b)); }
      c * d * Contract(a, b);
    }
  }

  /** ContractScaleBoth with the contraction of the unscaled operands given
      by value. */
  lemma ContractScaleBothValue(c: real, a: RankTwo, d: real, b: RankTwo, v: real)
    requires Contract(a, b) == v
    ensures Contract(Scale(c, a), Scale(d, b)) == c * d * v
  {
    ContractScaleBoth(c, a, d, b);
  }

  /** ContractScaleLeft with the contraction of the unscaled operands given
      by value. */
  lemma ContractScaleLeftValue(c: real, a: RankTwo, b: RankTwo, v: real)
    requires Contract(a, b) == v
    ensures Contract(Scale(c, a), b) == c * v
  {
    ContractScaleLeft(c, a, b);
  }

  /** Double contraction pulls scalars out of its first operand. */
  lemma ContractScaleLeft(c: real, a: RankTwo, b: RankTwo)
    ensures Contract(Scale(c, a), b) == c * Contract(a, b)
  {
  }

  lemma ScalarPair(c: real, d: real, x: real)
    ensures d * (c * x) == c * d * x
  {
  }

  /** A symmetric and a skew tensor are orthogonal under double contraction. */
  lemma ContractSymmetricSkew(a: RankTwo, b: RankTwo)
    requires Transpose(a) == a && Transpose(b) == Neg(b)
    ensures Contract(a, b) == 0.0 && Contract(b, a) == 0.0
  {
    forall i: Ix, j: Ix
      ensures At(a, j, i) == At(a, i, j) && At(b, j, i) == -At(b, i, j)
    {
      assert At(Transpose(a), i, j) == At(a, j, i);
      assert At(Transpose(b), i, j) == At(b, j, i);
    }
  }

  /** Double contraction changes sign with either operand. */
  lemma ContractNeg(a: RankTwo, b: RankTwo)
    ensures Contract(Neg(a), b) == -Contract(a, b)
    ensures Contract(a, Neg(b)) == -Contract(a, b)
  {
  }
}
