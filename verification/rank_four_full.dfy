/** General (full) rank-4 tensors: a 3x3x3x3 array, with the products that
    contract the last two indices of the left operand against the first two
    of the right one. */
module RankFourFull {
  import opened Indexing
  import Storage
  import F = RankTwoFull

  datatype RankFour = RankFour(m: Storage.Mat3333)

  /** Entry (i, j, k, l), the value of `operator()(i, j, k, l)`. */
  function At(c: RankFour, i: Ix, j: Ix, k: Ix, l: Ix): real {
    c.m[i][j][k][l]
  }

  /** The rank-2 slice of f with its first pair fixed at (i, j). */
  function Slice(f: (Ix, Ix, Ix, Ix) -> real, i: Ix, j: Ix): (r: Storage.Mat33)
    ensures forall k: Ix, l: Ix :: r[k][l] == f(i, j, k, l)
  {
    F.Build((k: Ix, l: Ix) => f(i, j, k, l)).m
  }

  /** The tensor whose entry (i, j, k, l) is f(i, j, k, l). */
  function Build(f: (Ix, Ix, Ix, Ix) -> real): (r: RankFour)
    ensures forall i: Ix, j: Ix, k: Ix, l: Ix :: At(r, i, j, k, l) == f(i, j, k, l)
  {
    RankFour(seq(3, (i: int) requires 0 <= i < 3 =>
      seq(3, (j: int) requires 0 <= j < 3 => Slice(f, i, j))))
  }

  /** Tensors with the same entries are equal. */
  lemma Ext(a: RankFour, b: RankFour)
    requires forall i: Ix, j: Ix, k: Ix, l: Ix :: At(a, i, j, k, l) == At(b, i, j, k, l)
    ensures a == b
  {
    forall i: Ix, j: Ix
      ensures a.m[i][j] == b.m[i][j]
    {
      forall k: Ix
        ensures a.m[i][j][k] == b.m[i][j][k]
      {
        assert forall l: Ix :: a.m[i][j][k][l] == At(a, i, j, k, l);
      }
    }
    forall i: Ix
      ensures a.m[i] == b.m[i]
    {
      assert forall j: Ix :: a.m[i][j] == b.m[i][j];
    }
  }

  /** Symmetric in the first index pair. */
  predicate SymmetricLeft(c: RankFour) {
    forall i: Ix, j: Ix, k: Ix, l: Ix :: At(c, j, i, k, l) == At(c, i, j, k, l)
  }

  /** Symmetric in the second index pair. */
  predicate SymmetricRight(c: RankFour) {
    forall i: Ix, j: Ix, k: Ix, l: Ix :: At(c, i, j, l, k) == At(c, i, j, k, l)
  }

  /** Skew in the first index pair. */
  predicate SkewLeft(c: RankFour) {
    forall i: Ix, j: Ix, k: Ix, l: Ix :: At(c, j, i, k, l) == -At(c, i, j, k, l)
  }

  /** Skew in the second index pair. */
  predicate SkewRight(c: RankFour) {
    forall i: Ix, j: Ix, k: Ix, l: Ix :: At(c, i, j, l, k) == -At(c, i, j, k, l)
  }

  /** The constructor from a nested 3x3x3x3 array. */
  function FromArray(c: seq<seq<seq<seq<real>>>>): (r: RankFour)
    requires |c| == 3 && forall i :: 0 <= i < 3 ==> |c[i]| == 3
    requires forall i, j :: 0 <= i < 3 && 0 <= j < 3 ==> |c[i][j]| == 3
    requires forall i, j, k :: 0 <= i < 3 && 0 <= j < 3 && 0 <= k < 3 ==> |c[i][j][k]| == 3
    ensures forall i: Ix, j: Ix, k: Ix, l: Ix :: At(r, i, j, k, l) == c[i][j][k][l]
  {
    Build((i: Ix, j: Ix, k: Ix, l: Ix) => c[i][j][k][l])
  }

  /** The default-constructed (zero) tensor. */
  function Zero(): RankFour {
    Build((i: Ix, j: Ix, k: Ix, l: Ix) => 0.0)
  }

  /** `opposite()` and unary minus. */
  function Neg(a: RankFour): RankFour {
    Build((i: Ix, j: Ix, k: Ix, l: Ix) => -At(a, i, j, k, l))
  }

  function Add(a: RankFour, b: RankFour): RankFour {
    Build((i: Ix, j: Ix, k: Ix, l: Ix) => At(a, i, j, k, l) + At(b, i, j, k, l))
  }

  function Sub(a: RankFour, b: RankFour): RankFour {
    Build((i: Ix, j: Ix, k: Ix, l: Ix) => At(a, i, j, k, l) - At(b, i, j, k, l))
  }

  function Scale(s: real, a: RankFour): RankFour {
    Build((i: Ix, j: Ix, k: Ix, l: Ix) => s * At(a, i, j, k, l))
  }

  function Div(a: RankFour, s: real): RankFour
    requires s != 0.0
  {
    Scale(1.0 / s, a)
  }

  /** The rank-2 slice (m, n) -> c_ijmn for a fixed first pair. */
  function Left(c: RankFour, i: Ix, j: Ix): F.RankTwo {
    F.RankTwo(c.m[i][j])
  }

  /** The rank-2 slice (m, n) -> c_mnkl for a fixed second pair. */
  function Right(c: RankFour, k: Ix, l: Ix): F.RankTwo {
    F.Build((m: Ix, n: Ix) => At(c, m, n, k, l))
  }

  /** `dot(const RankFour &)`: (a b)_ijkl = a_ijmn b_mnkl. */
  function Dot(a: RankFour, b: RankFour): RankFour {
    Build((i: Ix, j: Ix, k: Ix, l: Ix) => F.Contract(Left(a, i, j), Right(b, k, l)))
  }

  /** `dot(const RankTwo &)`: (a x)_ij = a_ijkl x_kl. */
  function Apply(a: RankFour, x: F.RankTwo): F.RankTwo {
    F.Build((i: Ix, j: Ix) => F.Contract(Left(a, i, j), x))
  }

  /** Both slices read the entries of the tensor. */
  lemma SliceEntries(c: RankFour, i: Ix, j: Ix, k: Ix, l: Ix)
    ensures F.At(Left(c, i, j), k, l) == At(c, i, j, k, l)
    ensures F.At(Right(c, k, l), i, j) == At(c, i, j, k, l)
  {
  }

  /** Entry-wise reading of the arithmetic operations. */
  lemma AddAt(a: RankFour, b: RankFour, i: Ix, j: Ix, k: Ix, l: Ix)
    ensures At(Add(a, b), i, j, k, l) == At(a, i, j, k, l) + At(b, i, j, k, l)
  {
  }

  lemma SubAt(a: RankFour, b: RankFour, i: Ix, j: Ix, k: Ix, l: Ix)
    ensures At(Sub(a, b), i, j, k, l) == At(a, i, j, k, l) - At(b, i, j, k, l)
  {
  }

  lemma ScaleAt(s: real, a: RankFour, i: Ix, j: Ix, k: Ix, l: Ix)
    ensures At(Scale(s, a), i, j, k, l) == s * At(a, i, j, k, l)
  {
  }

  lemma NegAt(a: RankFour, i: Ix, j: Ix, k: Ix, l: Ix)
    ensures At(Neg(a), i, j, k, l) == -At(a, i, j, k, l)
  {
  }

  /** A tensor whose entries are s times those of another is its scaling. */
  lemma ScaleExt(c: RankFour, d: RankFour, s: real)
    requires forall i: Ix, j: Ix, k: Ix, l: Ix :: At(c, i, j, k, l) == s * At(d, i, j, k, l)
    ensures c == Scale(s, d)
  {
    Ext(c, Scale(s, d));
  }

  /** Negation is scaling by -1 and undoes itself. */
  lemma NegProperties(a: RankFour)
    ensures Neg(a) == Scale(-1.0, a)
    ensures Neg(Neg(a)) == a
  {
    forall i: Ix, j: Ix, k: Ix, l: Ix
      ensures At(Neg(a), i, j, k, l) == At(Scale(-1.0, a), i, j, k, l)
      ensures At(Neg(Neg(a)), i, j, k, l) == At(a, i, j, k, l)
    {
      assert At(Neg(a), i, j, k, l) == -At(a, i, j, k, l);
    }
    Ext(Neg(a), Scale(-1.0, a));
    Ext(Neg(Neg(a)), a);
  }

  /** Addition commutes and subtraction undoes it. */
  lemma AddSubProperties(a: RankFour, b: RankFour)
    ensures Add(a, b) == Add(b, a)
    ensures Sub(Add(a, b), b) == a
  {
    forall i: Ix, j: Ix, k: Ix, l: Ix
      ensures At(Add(a, b), i, j, k, l) == At(Add(b, a), i, j, k, l)
      ensures At(Sub(Add(a, b), b), i, j, k, l) == At(a, i, j, k, l)
    {
      assert At(Add(a, b), i, j, k, l) == At(a, i, j, k, l) + At(b, i, j, k, l);
    }
    Ext(Add(a, b), Add(b, a));
    Ext(Sub(Add(a, b), b), a);
  }

  /** Division by a nonzero scalar undoes scaling by it. */
  lemma DivUndoesScale(a: RankFour, s: real)
    requires s != 0.0
    ensures Div(Scale(s, a), s) == a
  {
    forall i: Ix, j: Ix, k: Ix, l: Ix
      ensures At(Div(Scale(s, a), s), i, j, k, l) == At(a, i, j, k, l)
    {
      var x := At(a, i, j, k, l);
      assert At(Scale(s, a), i, j, k, l) == s * x;
      var t := 1.0 / s;
      assert Div(Scale(s, a), s) == Scale(t, Scale(s, a));
      assert At(Scale(t, Scale(s, a)), i, j, k, l) == t * (s * x);
      InverseScale(s, x);
    }
    Ext(Div(Scale(s, a), s), a);
  }

  lemma InverseScale(s: real, x: real)
    requires s != 0.0
    ensures (1.0 / s) * (s * x) == x
  {
  }

  /** The action on rank-2 tensors is linear. */
  lemma ApplyLinear(a: RankFour, x: F.RankTwo, y: F.RankTwo)
    ensures Apply(a, F.Add(x, y)) == F.Add(Apply(a, x), Apply(a, y))
  {
    forall i: Ix, j: Ix
      ensures F.At(Apply(a, F.Add(x, y)), i, j) == F.At(F.Add(Apply(a, x), Apply(a, y)), i, j)
    {
      F.ContractAddRight(Left(a, i, j), x, y);
    }
    F.Ext(Apply(a, F.Add(x, y)), F.Add(Apply(a, x), Apply(a, y)));
  }

  /** The right slice of a sum is the sum of the slices. */
  lemma RightAdd(b: RankFour, c: RankFour, k: Ix, l: Ix)
    ensures Right(Add(b, c), k, l) == F.Add(Right(b, k, l), Right(c, k, l))
  {
    forall m: Ix, n: Ix
      ensures F.At(Right(Add(b, c), k, l), m, n) == F.At(F.Add(Right(b, k, l), Right(c, k, l)), m, n)
    {
      assert F.At(Right(Add(b, c), k, l), m, n) == At(b, m, n, k, l) + At(c, m, n, k, l);
    }
    F.Ext(Right(Add(b, c), k, l), F.Add(Right(b, k, l), Right(c, k, l)));
  }

  /** The product distributes over addition of the right operand. */
  lemma DotAddRight(a: RankFour, b: RankFour, c: RankFour)
    ensures Dot(a, Add(b, c)) == Add(Dot(a, b), Dot(a, c))
  {
    forall i: Ix, j: Ix, k: Ix, l: Ix
      ensures At(Dot(a, Add(b, c)), i, j, k, l) == At(Add(Dot(a, b), Dot(a, c)), i, j, k, l)
    {
      RightAdd(b, c, k, l);
      F.ContractAddRight(Left(a, i, j), Right(b, k, l), Right(c, k, l));
      assert At(Dot(a, Add(b, c)), i, j, k, l) == F.Contract(Left(a, i, j), Right(Add(b, c), k, l));
    }
    Ext(Dot(a, Add(b, c)), Add(Dot(a, b), Dot(a, c)));
  }

  /** An entry of a product whose slices are known multiples of rank-2 tensors. */
  lemma DotEntry(a: RankFour, b: RankFour, i: Ix, j: Ix, k: Ix, l: Ix,
                 c: real, x: F.RankTwo, d: real, y: F.RankTwo, v: real)
    requires Left(a, i, j) == F.Scale(c, x) && Right(b, k, l) == F.Scale(d, y)
    requires F.Contract(x, y) == v
    ensures At(Dot(a, b), i, j, k, l) == c * d * v
  {
    assert At(Dot(a, b), i, j, k, l) == F.Contract(F.Scale(c, x), F.Scale(d, y));
    F.ContractScaleBothValue(c, x, d, y, v);
  }

  /** An entry of the action on a rank-2 tensor whose slice is a known multiple. */
  lemma ApplyEntry(a: RankFour, y: F.RankTwo, i: Ix, j: Ix, c: real, x: F.RankTwo, v: real)
    requires Left(a, i, j) == F.Scale(c, x)
    requires F.Contract(x, y) == v
    ensures F.At(Apply(a, y), i, j) == c * v
  {
    assert F.At(Apply(a, y), i, j) == F.Contract(F.Scale(c, x), y);
    F.ContractScaleLeftValue(c, x, y, v);
  }

  /** The symmetry of the second pair is that of every left slice. */
  lemma LeftSymmetry(a: RankFour, i: Ix, j: Ix)
    ensures SymmetricRight(a) ==> F.Transpose(Left(a, i, j)) == Left(a, i, j)
    ensures SkewRight(a) ==> F.Transpose(Left(a, i, j)) == F.Neg(Left(a, i, j))
  {
    var x := Left(a, i, j);
    forall m: Ix, n: Ix
      ensures F.At(F.Transpose(x), m, n) == At(a, i, j, n, m) && F.At(x, m, n) == At(a, i, j, m, n)
    {
    }
    if SymmetricRight(a) {
      F.Ext(F.Transpose(x), x);
    }
    if SkewRight(a) {
      F.Ext(F.Transpose(x), F.Neg(x));
    }
  }

  /** The symmetry of the first pair is that of every right slice. */
  lemma RightSymmetry(b: RankFour, k: Ix, l: Ix)
    ensures SymmetricLeft(b) ==> F.Transpose(Right(b, k, l)) == Right(b, k, l)
    ensures SkewLeft(b) ==> F.Transpose(Right(b, k, l)) == F.Neg(Right(b, k, l))
  {
    var y := Right(b, k, l);
    forall m: Ix, n: Ix
      ensures F.At(F.Transpose(y), m, n) == At(b, n, m, k, l) && F.At(y, m, n) == At(b, m, n, k, l)
    {
    }
    if SymmetricLeft(b) {
      F.Ext(F.Transpose(y), y);
    }
    if SkewLeft(b) {
      F.Ext(F.Transpose(y), F.Neg(y));
    }
  }

  /** Swapping the first pair swaps left slices, up to sign. */
  lemma LeftSwap(a: RankFour, i: Ix, j: Ix)
    ensures SymmetricLeft(a) ==> Left(a, j, i) == Left(a, i, j)
    ensures SkewLeft(a) ==> Left(a, j, i) == F.Neg(Left(a, i, j))
  {
    forall m: Ix, n: Ix
      ensures F.At(Left(a, j, i), m, n) == At(a, j, i, m, n) && F.At(Left(a, i, j), m, n) == At(a, i, j, m, n)
    {
    }
    if SymmetricLeft(a) {
      F.Ext(Left(a, j, i), Left(a, i, j));
    }
    if SkewLeft(a) {
      F.Ext(Left(a, j, i), F.Neg(Left(a, i, j)));
    }
  }

  /** Swapping the second pair swaps right slices, up to sign. */
  lemma RightSwap(b: RankFour, k: Ix, l: Ix)
    ensures SymmetricRight(b) ==> Right(b, l, k) == Right(b, k, l)
    ensures SkewRight(b) ==> Right(b, l, k) == F.Neg(Right(b, k, l))
  {
    forall m: Ix, n: Ix
      ensures F.At(Right(b, l, k), m, n) == At(b, m, n, l, k) && F.At(Right(b, k, l), m, n) == At(b, m, n, k, l)
    {
    }
    if SymmetricRight(b) {
      F.Ext(Right(b, l, k), Right(b, k, l));
    }
    if SkewRight(b) {
      F.Ext(Right(b, l, k), F.Neg(Right(b, k, l)));
    }
  }

  /** A tensor symmetric in its second pair annihilates a tensor skew in its
      first pair, and the other way round. */
  lemma DotSymmetricSkew(a: RankFour, b: RankFour)
    requires (SymmetricRight(a) && SkewLeft(b)) || (SkewRight(a) && SymmetricLeft(b))
    ensures Dot(a, b) == Zero()
  {
    forall i: Ix, j: Ix, k: Ix, l: Ix
      ensures At(Dot(a, b), i, j, k, l) == At(Zero(), i, j, k, l)
    {
      LeftSymmetry(a, i, j);
      RightSymmetry(b, k, l);
      if SymmetricRight(a) && SkewLeft(b) {
        F.ContractSymmetricSkew(Left(a, i, j), Right(b, k, l));
      } else {
        F.ContractSymmetricSkew(Right(b, k, l), Left(a, i, j));
      }
    }
    Ext(Dot(a, b), Zero());
  }

  /** A tensor symmetric in its second pair annihilates skew rank-2 tensors,
      and one skew there annihilates symmetric ones. */
  lemma ApplySymmetricSkew(a: RankFour, x: F.RankTwo)
    requires (SymmetricRight(a) && F.Transpose(x) == F.Neg(x)) || (SkewRight(a) && F.Transpose(x) == x)
    ensures Apply(a, x) == F.Zero()
  {
    forall i: Ix, j: Ix
      ensures F.At(Apply(a, x), i, j) == F.At(F.Zero(), i, j)
    {
      LeftSymmetry(a, i, j);
      if SymmetricRight(a) && F.Transpose(x) == F.Neg(x) {
        F.ContractSymmetricSkew(Left(a, i, j), x);
      } else {
        F.ContractSymmetricSkew(x, Left(a, i, j));
      }
    }
    F.Ext(Apply(a, x), F.Zero());
  }

  /** The product keeps the symmetry of the left operand's first pair. */
  lemma DotKeepsLeft(a: RankFour, b: RankFour)
    ensures SymmetricLeft(a) ==> SymmetricLeft(Dot(a, b))
    ensures SkewLeft(a) ==> SkewLeft(Dot(a, b))
  {
    forall i: Ix, j: Ix, k: Ix, l: Ix
      ensures SymmetricLeft(a) ==> At(Dot(a, b), j, i, k, l) == At(Dot(a, b), i, j, k, l)
      ensures SkewLeft(a) ==> At(Dot(a, b), j, i, k, l) == -At(Dot(a, b), i, j, k, l)
    {
      LeftSwap(a, i, j);
      F.ContractNeg(Left(a, i, j), Right(b, k, l));
    }
  }

  /** The product keeps the symmetry of the right operand's second pair. */
  lemma DotKeepsRight(a: RankFour, b: RankFour)
    ensures SymmetricRight(b) ==> SymmetricRight(Dot(a, b))
    ensures SkewRight(b) ==> SkewRight(Dot(a, b))
  {
    forall i: Ix, j: Ix, k: Ix, l: Ix
      ensures SymmetricRight(b) ==> At(Dot(a, b), i, j, l, k) == At(Dot(a, b), i, j, k, l)
      ensures SkewRight(b) ==> At(Dot(a, b), i, j, l, k) == -At(Dot(a, b), i, j, k, l)
    {
      RightSwap(b, k, l);
      F.ContractNeg(Left(a, i, j), Right(b, k, l));
    }
  }

  /** The action on a rank-2 tensor gives a symmetric result when the first
      pair is symmetric and a skew one when it is skew. */
  lemma ApplyKeepsLeft(a: RankFour, x: F.RankTwo)
    ensures SymmetricLeft(a) ==> F.Transpose(Apply(a, x)) == Apply(a, x)
    ensures SkewLeft(a) ==> F.Transpose(Apply(a, x)) == F.Neg(Apply(a, x))
  {
    forall i: Ix, j: Ix
      ensures SymmetricLeft(a) ==> F.At(F.Transpose(Apply(a, x)), i, j) == F.At(Apply(a, x), i, j)
      ensures SkewLeft(a) ==> F.At(F.Transpose(Apply(a, x)), i, j) == F.At(F.Neg(Apply(a, x)), i, j)
    {
      LeftSwap(a, j, i);
      F.ContractNeg(Left(a, j, i), x);
    }
    if SymmetricLeft(a) {
      F.Ext(F.Transpose(Apply(a, x)), Apply(a, x));
    }
    if SkewLeft(a) {
      F.Ext(F.Transpose(Apply(a, x)), F.Neg(Apply(a, x)));
    }
  }
}
