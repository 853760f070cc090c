/** Symmetric rank-2 tensors in Mandel notation: six components, the diagonal
    first, the off-diagonal pairs (23, 13, 12) scaled by the square root of two
    so that the Euclidean dot product of two Mandel rows is the double
    contraction of the matrices they stand for. */
module SymmetricTensor {
  import opened Indexing
  import Storage
  import V = Vectors
  import F = RankTwoFull
  import opened Outcomes

  datatype Symmetric = Symmetric(v: Storage.Row6)

  /** Stored Mandel component k. */
  function Comp(a: Symmetric, k: Slot): real {
    a.v[k]
  }

  /** The tensor whose Mandel component k is f(k). */
  function Build(f: Slot -> real): (r: Symmetric)
    ensures forall k: Slot :: Comp(r, k) == f(k)
  {
    Symmetric(seq(6, (k: int) requires 0 <= k < 6 => f(k)))
  }

  /** Tensors with the same Mandel components are equal. */
  lemma Ext(a: Symmetric, b: Symmetric)
    requires forall k: Slot :: Comp(a, k) == Comp(b, k)
    ensures a == b
  {
    assert forall k: int :: 0 <= k < 6 ==> a.v[k] == Comp(a, k);
  }

  /** The default-constructed (zero) tensor. */
  function Zero(): Symmetric {
    Build((k: Slot) => 0.0)
  }

  /** `Symmetric::id()`, stored as [1, 1, 1, 0, 0, 0]. */
  function Id(): Symmetric {
    Symmetric([1.0, 1.0, 1.0, 0.0, 0.0, 0.0])
  }

  /** `opposite()` and unary minus. */
  function Neg(a: Symmetric): Symmetric {
    Build((k: Slot) => -Comp(a, k))
  }

  function Add(a: Symmetric, b: Symmetric): Symmetric {
    Build((k: Slot) => Comp(a, k) + Comp(b, k))
  }

  function Sub(a: Symmetric, b: Symmetric): Symmetric {
    Build((k: Slot) => Comp(a, k) - Comp(b, k))
  }

  function Scale(s: real, a: Symmetric): Symmetric {
    Build((k: Slot) => s * Comp(a, k))
  }

  function Div(a: Symmetric, s: real): Symmetric
    requires s != 0.0
  {
    Scale(1.0 / s, a)
  }

  /** Entry (i, j) of the matrix the tensor stands for: the Mandel component
      of the pair, with its scale removed. */
  function Entry(s2: real, a: Symmetric, i: Ix, j: Ix): real {
    Comp(a, MandelSlot(i, j)) * InvWeight(s2, MandelSlot(i, j))
  }

  /** `to_full()` and the embedding constructor `RankTwo(const Symmetric &)`. */
  function ToFull(s2: real, a: Symmetric): F.RankTwo {
    F.Build((i: Ix, j: Ix) => Entry(s2, a, i, j))
  }

  /** Entry (i, j) of the embedding, read off its Mandel slot. */
  lemma ToFullAt(s2: real, a: Symmetric, i: Ix, j: Ix)
    ensures F.At(ToFull(s2, a), i, j) == Comp(a, MandelSlot(i, j)) * InvWeight(s2, MandelSlot(i, j))
  {
  }

  /** The symmetrizing constructor `Symmetric(const RankTwo &)`: slot k holds
      the scaled mean of the two entries of its pair. */
  function FromFull(s2: real, a: F.RankTwo): Symmetric {
    Build((k: Slot) => Weight(s2, k) * (F.At(a, SlotRow(k), SlotCol(k)) + F.At(a, SlotCol(k), SlotRow(k))) / 2.0)
  }

  /** `transpose()`: a symmetric tensor is its own transpose. */
  function Transpose(a: Symmetric): Symmetric {
    a
  }

  /** `trace()`: the sum of the three diagonal slots. */
  function Trace(a: Symmetric): real {
    Comp(a, 0) + Comp(a, 1) + Comp(a, 2)
  }

  /** `contract(const Symmetric &)`: the Euclidean dot product of the Mandel rows. */
  function Contract(a: Symmetric, b: Symmetric): real {
    Comp(a, 0) * Comp(b, 0) + Comp(a, 1) * Comp(b, 1) + Comp(a, 2) * Comp(b, 2) +
    Comp(a, 3) * Comp(b, 3) + Comp(a, 4) * Comp(b, 4) + Comp(a, 5) * Comp(b, 5)
  }

  /** `dot(const Vector &)` and `operator*(Symmetric, Vector)`. */
  function Apply(s2: real, a: Symmetric, x: V.Vector): V.Vector {
    V.Build((i: Ix) => Entry(s2, a, i, 0) * V.At(x, 0) + Entry(s2, a, i, 1) * V.At(x, 1) + Entry(s2, a, i, 2) * V.At(x, 2))
  }

  /** `operator*(Vector, Symmetric)`: the row vector times the matrix. */
  function ApplyLeft(s2: real, x: V.Vector, a: Symmetric): V.Vector {
    V.Build((j: Ix) => V.At(x, 0) * Entry(s2, a, 0, j) + V.At(x, 1) * Entry(s2, a, 1, j) + V.At(x, 2) * Entry(s2, a, 2, j))
  }

  /** `inverse()`: the inverse of the full matrix, stored back in Mandel form;
      a singular tensor has none. */
  function Inverse(s2: real, a: Symmetric): Inversion<Symmetric> {
    match F.Inverse(ToFull(s2, a))
    case Singular => Singular
    case Regular(b) => Regular(FromFull(s2, b))
  }

  /** The embedding is a symmetric matrix: entry (i, j) equals entry (j, i). */
  lemma ToFullSymmetric(s2: real, a: Symmetric)
    ensures F.Transpose(ToFull(s2, a)) == ToFull(s2, a)
    ensures ToFull(s2, Transpose(a)) == F.Transpose(ToFull(s2, a))
  {
    F.Ext(F.Transpose(ToFull(s2, a)), ToFull(s2, a));
  }

  /** Embedding then symmetrizing gives back the Mandel components. */
  lemma FromFullToFull(s2: real, a: Symmetric)
    requires Root2(s2)
    ensures FromFull(s2, ToFull(s2, a)) == a
  {
    forall k: Slot
      ensures Comp(FromFull(s2, ToFull(s2, a)), k) == Comp(a, k)
    {
      FromFullToFullComp(s2, a, k);
    }
    Ext(FromFull(s2, ToFull(s2, a)), a);
  }

  /** Slot k of the round trip: both entries of the pair hold the unscaled
      component, and the scale puts it back. */
  lemma FromFullToFullComp(s2: real, a: Symmetric, k: Slot)
    requires Root2(s2)
    ensures Comp(FromFull(s2, ToFull(s2, a)), k) == Comp(a, k)
  {
    SlotOfPair(k);
    WeightInverse(s2, k);
    var m := ToFull(s2, a);
    ToFullAt(s2, a, SlotRow(k), SlotCol(k));
    ToFullAt(s2, a, SlotCol(k), SlotRow(k));
    RescaledMean(Weight(s2, k), InvWeight(s2, k), Comp(a, k),
                 F.At(m, SlotRow(k), SlotCol(k)), F.At(m, SlotCol(k), SlotRow(k)),
                 Comp(FromFull(s2, m), k));
  }

  /** The scaled mean of two entries that both hold the unscaled component. */
  lemma RescaledMean(w: real, iw: real, c: real, e1: real, e2: real, r: real)
    requires w * iw == 1.0 && e1 == c * iw && e2 == c * iw
    requires r == w * (e1 + e2) / 2.0
    ensures r == c
  {
    assert r == (w * iw) * c;
  }

  /** Symmetrizing then embedding gives the symmetric part (A + A^T) / 2. */
  lemma ToFullFromFull(s2: real, a: F.RankTwo)
    requires Root2(s2)
    ensures ToFull(s2, FromFull(s2, a)) == F.Scale(0.5, F.Add(a, F.Transpose(a)))
  {
    var r := ToFull(s2, FromFull(s2, a));
    forall i: Ix, j: Ix
      ensures F.At(r, i, j) == F.At(F.Scale(0.5, F.Add(a, F.Transpose(a))), i, j)
    {
      SymmetrizedEntry(s2, a, i, j);
    }
    F.Ext(r, F.Scale(0.5, F.Add(a, F.Transpose(a))));
  }

  /** Entry (i, j) of the symmetrized tensor is the mean of a_ij and a_ji. */
  lemma SymmetrizedEntry(s2: real, a: F.RankTwo, i: Ix, j: Ix)
    requires Root2(s2)
    ensures Entry(s2, FromFull(s2, a), i, j) == 0.5 * (F.At(a, i, j) + F.At(a, j, i))
  {
    var k := MandelSlot(i, j);
    PairOfSlot(i, j);
    WeightInverse(s2, k);
    var m := F.At(a, SlotRow(k), SlotCol(k)) + F.At(a, SlotCol(k), SlotRow(k));
    assert m == F.At(a, i, j) + F.At(a, j, i);
    assert Comp(FromFull(s2, a), k) == Weight(s2, k) * m / 2.0;
    UnscaledMean(Weight(s2, k), InvWeight(s2, k), m);
  }

  /** Scaling by a weight and then by its reciprocal leaves the mean of a pair. */
  lemma UnscaledMean(w: real, iw: real, m: real)
    requires w * iw == 1.0
    ensures (w * m / 2.0) * iw == m / 2.0
  {
    assert (w * m / 2.0) * iw == (w * iw) * m / 2.0;
  }

  /** A symmetric full tensor survives the round trip through Mandel form. */
  lemma ToFullFromFullSymmetric(s2: real, a: F.RankTwo)
    requires Root2(s2)
    requires F.Transpose(a) == a
    ensures ToFull(s2, FromFull(s2, a)) == a
  {
    ToFullFromFull(s2, a);
    F.Ext(F.Scale(0.5, F.Add(a, F.Transpose(a))), a);
  }

  /** Symmetrizing ignores the skew part: a tensor and its transpose project alike. */
  lemma FromFullTranspose(s2: real, a: F.RankTwo)
    ensures FromFull(s2, F.Transpose(a)) == FromFull(s2, a)
  {
    Ext(FromFull(s2, F.Transpose(a)), FromFull(s2, a));
  }

  /** `id()` embeds to the identity matrix; its trace is three and contracting
      with it takes the trace. */
  lemma IdProperties(s2: real, a: Symmetric)
    requires Root2(s2)
    ensures ToFull(s2, Id()) == F.Identity()
    ensures Trace(Id()) == 3.0
    ensures Contract(Id(), a) == Trace(a)
  {
    F.Ext(ToFull(s2, Id()), F.Identity());
  }

  /** The trace of the Mandel row is the trace of the embedded matrix. */
  lemma TraceAgrees(s2: real, a: Symmetric)
    ensures Trace(a) == F.Trace(ToFull(s2, a))
  {
  }

  /** The Mandel dot product is the true double contraction of the embeddings. */
  lemma ContractAgrees(s2: real, a: Symmetric, b: Symmetric)
    requires Root2(s2)
    ensures Contract(a, b) == F.Contract(ToFull(s2, a), ToFull(s2, b))
  {
    var h := s2 / 2.0;
    assert 2.0 * (h * h) == 1.0;
    var x, y := ToFull(s2, a), ToFull(s2, b);
    assert F.At(x, 1, 2) == Comp(a, 3) * h && F.At(x, 2, 1) == Comp(a, 3) * h;
    assert F.At(x, 0, 2) == Comp(a, 4) * h && F.At(x, 2, 0) == Comp(a, 4) * h;
    assert F.At(x, 0, 1) == Comp(a, 5) * h && F.At(x, 1, 0) == Comp(a, 5) * h;
    assert F.At(y, 1, 2) == Comp(b, 3) * h && F.At(y, 2, 1) == Comp(b, 3) * h;
    assert F.At(y, 0, 2) == Comp(b, 4) * h && F.At(y, 2, 0) == Comp(b, 4) * h;
    assert F.At(y, 0, 1) == Comp(b, 5) * h && F.At(y, 1, 0) == Comp(b, 5) * h;
    assert F.At(x, 0, 0) == Comp(a, 0) && F.At(x, 1, 1) == Comp(a, 1) && F.At(x, 2, 2) == Comp(a, 2);
    assert F.At(y, 0, 0) == Comp(b, 0) && F.At(y, 1, 1) == Comp(b, 1) && F.At(y, 2, 2) == Comp(b, 2);
    ContractOfEmbedded(a, b, x, y, h);
  }

  /** The full contraction of two matrices laid out as embeddings with
      off-diagonal scale `h`, where 2 h^2 = 1. */
  lemma ContractOfEmbedded(a: Symmetric, b: Symmetric, x: F.RankTwo, y: F.RankTwo, h: real)
    requires 2.0 * (h * h) == 1.0
    requires F.At(x, 1, 2) == Comp(a, 3) * h && F.At(x, 2, 1) == Comp(a, 3) * h
    requires F.At(x, 0, 2) == Comp(a, 4) * h && F.At(x, 2, 0) == Comp(a, 4) * h
    requires F.At(x, 0, 1) == Comp(a, 5) * h && F.At(x, 1, 0) == Comp(a, 5) * h
    requires F.At(y, 1, 2) == Comp(b, 3) * h && F.At(y, 2, 1) == Comp(b, 3) * h
    requires F.At(y, 0, 2) == Comp(b, 4) * h && F.At(y, 2, 0) == Comp(b, 4) * h
    requires F.At(y, 0, 1) == Comp(b, 5) * h && F.At(y, 1, 0) == Comp(b, 5) * h
    requires F.At(x, 0, 0) == Comp(a, 0) && F.At(x, 1, 1) == Comp(a, 1) && F.At(x, 2, 2) == Comp(a, 2)
    requires F.At(y, 0, 0) == Comp(b, 0) && F.At(y, 1, 1) == Comp(b, 1) && F.At(y, 2, 2) == Comp(b, 2)
    ensures Contract(a, b) == F.Contract(x, y)
  {
    PairProducts(Comp(a, 3), Comp(b, 3), h);
    PairProducts(Comp(a, 4), Comp(b, 4), h);
    PairProducts(Comp(a, 5), Comp(b, 5), h);
  }

  /** An off-diagonal slot counted twice with its scale removed. */
  lemma PairProducts(p: real, q: real, h: real)
    requires 2.0 * (h * h) == 1.0
    ensures (p * h) * (q * h) + (p * h) * (q * h) == p * q
  {
    assert (p * h) * (q * h) == (p * q) * (h * h);
  }

  /** Embedding commutes with addition and subtraction. */
  lemma ToFullAdd(s2: real, a: Symmetric, b: Symmetric)
    ensures ToFull(s2, Add(a, b)) == F.Add(ToFull(s2, a), ToFull(s2, b))
    ensures ToFull(s2, Sub(a, b)) == F.Sub(ToFull(s2, a), ToFull(s2, b))
  {
    forall i: Ix, j: Ix
      ensures F.At(ToFull(s2, Add(a, b)), i, j) == F.At(F.Add(ToFull(s2, a), ToFull(s2, b)), i, j)
      ensures F.At(ToFull(s2, Sub(a, b)), i, j) == F.At(F.Sub(ToFull(s2, a), ToFull(s2, b)), i, j)
    {
      var k, w := MandelSlot(i, j), InvWeight(s2, MandelSlot(i, j));
      assert (Comp(a, k) + Comp(b, k)) * w == Comp(a, k) * w + Comp(b, k) * w;
      assert (Comp(a, k) - Comp(b, k)) * w == Comp(a, k) * w - Comp(b, k) * w;
    }
    F.Ext(ToFull(s2, Add(a, b)), F.Add(ToFull(s2, a), ToFull(s2, b)));
    F.Ext(ToFull(s2, Sub(a, b)), F.Sub(ToFull(s2, a), ToFull(s2, b)));
  }

  /** Embedding commutes with negation and scaling. */
  lemma ToFullScale(s2: real, a: Symmetric, c: real)
    ensures ToFull(s2, Neg(a)) == F.Neg(ToFull(s2, a))
    ensures ToFull(s2, Scale(c, a)) == F.Scale(c, ToFull(s2, a))
  {
    forall i: Ix, j: Ix
      ensures F.At(ToFull(s2, Neg(a)), i, j) == F.At(F.Neg(ToFull(s2, a)), i, j)
      ensures F.At(ToFull(s2, Scale(c, a)), i, j) == F.At(F.Scale(c, ToFull(s2, a)), i, j)
    {
      var k, w := MandelSlot(i, j), InvWeight(s2, MandelSlot(i, j));
      assert (-Comp(a, k)) * w == -(Comp(a, k) * w);
      assert (c * Comp(a, k)) * w == c * (Comp(a, k) * w);
    }
    F.Ext(ToFull(s2, Neg(a)), F.Neg(ToFull(s2, a)));
    F.Ext(ToFull(s2, Scale(c, a)), F.Scale(c, ToFull(s2, a)));
  }

  /** Division by a nonzero scalar undoes scaling by it. */
  lemma DivUndoesScale(a: Symmetric, s: real)
    requires s != 0.0
    ensures Div(Scale(s, a), s) == a
  {
    forall k: Slot
      ensures Comp(Div(Scale(s, a), s), k) == Comp(a, k)
    {
      assert Comp(Div(Scale(s, a), s), k) == (1.0 / s) * (s * Comp(a, k));
    }
    Ext(Div(Scale(s, a), s), a);
  }

  /** Contracting a row that is a multiple of b is that multiple of the
      contraction with b. */
  lemma ContractScaledRow(r: Symmetric, b: Symmetric, x: Symmetric, c: real)
    requires forall q: Slot :: Comp(r, q) == c * Comp(b, q)
    ensures Contract(r, x) == c * Contract(b, x)
  {
  }

  /** Scaling the first argument scales the contraction, whose value is v. */
  lemma ContractScaleValue(c: real, b: Symmetric, x: Symmetric, v: real)
    requires Contract(b, x) == v
    ensures Contract(Scale(c, b), x) == c * v
  {
    ContractScaledRow(Scale(c, b), b, x, c);
  }

  /** The matrix-vector product is the full one on the embedding. */
  lemma ApplyAgrees(s2: real, a: Symmetric, x: V.Vector)
    ensures Apply(s2, a, x) == F.Apply(ToFull(s2, a), x)
  {
    forall i: Ix
      ensures V.At(Apply(s2, a, x), i) == V.At(F.Apply(ToFull(s2, a), x), i)
    {
      ApplyEntry(s2, a, x, i);
    }
    V.Ext(Apply(s2, a, x), F.Apply(ToFull(s2, a), x));
  }

  lemma ApplyEntry(s2: real, a: Symmetric, x: V.Vector, i: Ix)
    ensures V.At(Apply(s2, a, x), i) == V.At(F.Apply(ToFull(s2, a), x), i)
  {
    EmbeddedLine(s2, a, i, 0, i, 1, i, 2, Entry(s2, a, i, 0), Entry(s2, a, i, 1), Entry(s2, a, i, 2));
  }

  /** Three entries of the embedding, read off as values. */
  lemma EmbeddedLine(s2: real, a: Symmetric, i0: Ix, j0: Ix, i1: Ix, j1: Ix, i2: Ix, j2: Ix, e0: real, e1: real, e2: real)
    requires e0 == Entry(s2, a, i0, j0) && e1 == Entry(s2, a, i1, j1) && e2 == Entry(s2, a, i2, j2)
    ensures F.At(ToFull(s2, a), i0, j0) == e0 && F.At(ToFull(s2, a), i1, j1) == e1 && F.At(ToFull(s2, a), i2, j2) == e2
  {
  }

  /** The vector-matrix product is the full one on the embedding. */
  lemma ApplyLeftAgrees(s2: real, a: Symmetric, x: V.Vector)
    ensures ApplyLeft(s2, x, a) == F.ApplyLeft(x, ToFull(s2, a))
  {
    forall j: Ix
      ensures V.At(ApplyLeft(s2, x, a), j) == V.At(F.ApplyLeft(x, ToFull(s2, a)), j)
    {
      ApplyLeftEntry(s2, a, x, j);
    }
    V.Ext(ApplyLeft(s2, x, a), F.ApplyLeft(x, ToFull(s2, a)));
  }

  lemma ApplyLeftEntry(s2: real, a: Symmetric, x: V.Vector, j: Ix)
    ensures V.At(ApplyLeft(s2, x, a), j) == V.At(F.ApplyLeft(x, ToFull(s2, a)), j)
  {
    EmbeddedLine(s2, a, 0, j, 1, j, 2, j, Entry(s2, a, 0, j), Entry(s2, a, 1, j), Entry(s2, a, 2, j));
  }

  /** A symmetric matrix acts alike from either side. */
  lemma ApplyLeftIsApply(s2: real, a: Symmetric, x: V.Vector)
    ensures ApplyLeft(s2, x, a) == Apply(s2, a, x)
  {
    ApplyLeftAgrees(s2, a, x);
    F.ApplyLeftIsTransposed(x, ToFull(s2, a));
    ToFullSymmetric(s2, a);
    ApplyAgrees(s2, a, x);
  }

  /** `inverse()` fails exactly on a singular tensor, and otherwise returns a
      symmetric tensor whose embedding inverts the embedding of the argument. */
  lemma InverseCorrect(s2: real, a: Symmetric)
    requires Root2(s2)
    ensures Inverse(s2, a).Singular? <==> F.Det(ToFull(s2, a)) == 0.0
    ensures Inverse(s2, a).Regular? ==>
              F.Dot(ToFull(s2, a), ToFull(s2, Inverse(s2, a).value)) == F.Identity() &&
              F.Dot(ToFull(s2, Inverse(s2, a).value), ToFull(s2, a)) == F.Identity()
  {
    var m := ToFull(s2, a);
    if F.Det(m) != 0.0 {
      var b := F.Inverse(m).value;
      ToFullSymmetric(s2, a);
      F.SymmetricAdjugate(m);
      F.ScaleTranspose(1.0 / F.Det(m), F.Adjugate(m));
      ToFullFromFullSymmetric(s2, b);
    }
  }
}
