/** Operations between rank-2 tensors of different classes.  Every mixed
    operation acts on the full matrices the operands stand for; the result is
    a general `RankTwo` except for the contractions, which are scalars. */
module RankTwoMixed {
  import opened Indexing
  import V = Vectors
  import F = RankTwoFull
  import Sym = SymmetricTensor
  import Sk = SkewTensor

  // Addition and subtraction, which promote to a general tensor.

  function AddFullSym(s2: real, a: F.RankTwo, b: Sym.Symmetric): F.RankTwo {
    F.Add(a, Sym.ToFull(s2, b))
  }

  function AddSymFull(s2: real, a: Sym.Symmetric, b: F.RankTwo): F.RankTwo {
    F.Add(Sym.ToFull(s2, a), b)
  }

  function SubFullSym(s2: real, a: F.RankTwo, b: Sym.Symmetric): F.RankTwo {
    F.Sub(a, Sym.ToFull(s2, b))
  }

  function SubSymFull(s2: real, a: Sym.Symmetric, b: F.RankTwo): F.RankTwo {
    F.Sub(Sym.ToFull(s2, a), b)
  }

  function AddFullSkew(a: F.RankTwo, b: Sk.Skew): F.RankTwo {
    F.Add(a, Sk.ToFull(b))
  }

  function AddSkewFull(a: Sk.Skew, b: F.RankTwo): F.RankTwo {
    F.Add(Sk.ToFull(a), b)
  }

  function SubFullSkew(a: F.RankTwo, b: Sk.Skew): F.RankTwo {
    F.Sub(a, Sk.ToFull(b))
  }

  function SubSkewFull(a: Sk.Skew, b: F.RankTwo): F.RankTwo {
    F.Sub(Sk.ToFull(a), b)
  }

  // Matrix products across classes.

  function DotFullSym(s2: real, a: F.RankTwo, b: Sym.Symmetric): F.RankTwo {
    F.Dot(a, Sym.ToFull(s2, b))
  }

  function DotSymFull(s2: real, a: Sym.Symmetric, b: F.RankTwo): F.RankTwo {
    F.Dot(Sym.ToFull(s2, a), b)
  }

  function DotFullSkew(a: F.RankTwo, b: Sk.Skew): F.RankTwo {
    F.Dot(a, Sk.ToFull(b))
  }

  function DotSkewFull(a: Sk.Skew, b: F.RankTwo): F.RankTwo {
    F.Dot(Sk.ToFull(a), b)
  }

  function DotSymSkew(s2: real, a: Sym.Symmetric, b: Sk.Skew): F.RankTwo {
    F.Dot(Sym.ToFull(s2, a), Sk.ToFull(b))
  }

  function DotSkewSym(s2: real, a: Sk.Skew, b: Sym.Symmetric): F.RankTwo {
    F.Dot(Sk.ToFull(a), Sym.ToFull(s2, b))
  }

  // Products of two tensors of one reduced class, stored back in that class.

  /** `Symmetric::dot(const Symmetric &)` and `operator*(Symmetric, Symmetric)`:
      the matrix product, stored through the symmetrizing constructor. */
  function DotSymSym(s2: real, a: Sym.Symmetric, b: Sym.Symmetric): Sym.Symmetric {
    Sym.FromFull(s2, F.Dot(Sym.ToFull(s2, a), Sym.ToFull(s2, b)))
  }

  /** `Skew::dot(const Skew &)`: the matrix product, stored through the
      constructor that takes the skew part. */
  function DotSkewSkew(a: Sk.Skew, b: Sk.Skew): Sk.Skew {
    Sk.FromFull(F.Dot(Sk.ToFull(a), Sk.ToFull(b)))
  }

  // Double contractions across classes.

  function ContractFullSym(s2: real, a: F.RankTwo, b: Sym.Symmetric): real {
    F.Contract(a, Sym.ToFull(s2, b))
  }

  function ContractSymFull(s2: real, a: Sym.Symmetric, b: F.RankTwo): real {
    F.Contract(Sym.ToFull(s2, a), b)
  }

  function ContractFullSkew(a: F.RankTwo, b: Sk.Skew): real {
    F.Contract(a, Sk.ToFull(b))
  }

  function ContractSkewFull(a: Sk.Skew, b: F.RankTwo): real {
    F.Contract(Sk.ToFull(a), b)
  }

  function ContractSymSkew(s2: real, a: Sym.Symmetric, b: Sk.Skew): real {
    F.Contract(Sym.ToFull(s2, a), Sk.ToFull(b))
  }

  function ContractSkewSym(s2: real, a: Sk.Skew, b: Sym.Symmetric): real {
    F.Contract(Sk.ToFull(a), Sym.ToFull(s2, b))
  }

  /** Every tensor is the sum of the embeddings of its symmetric and skew parts. */
  lemma Split(s2: real, a: F.RankTwo)
    requires Root2(s2)
    ensures F.Add(Sym.ToFull(s2, Sym.FromFull(s2, a)), Sk.ToFull(Sk.FromFull(a))) == a
  {
    Sym.ToFullFromFull(s2, a);
    Sk.ToFullFromFull(a);
    F.Ext(F.Add(F.Scale(0.5, F.Add(a, F.Transpose(a))), F.Scale(0.5, F.Sub(a, F.Transpose(a)))), a);
  }

  /** A symmetric tensor has no skew part, and a skew tensor no symmetric part. */
  lemma CrossProjectionsVanish(s2: real, a: Sym.Symmetric, b: Sk.Skew)
    ensures Sk.FromFull(Sym.ToFull(s2, a)) == Sk.Zero()
    ensures Sym.FromFull(s2, Sk.ToFull(b)) == Sym.Zero()
  {
    Sk.Ext(Sk.FromFull(Sym.ToFull(s2, a)), Sk.Zero());
    forall k: Slot
      ensures Sym.Comp(Sym.FromFull(s2, Sk.ToFull(b)), k) == 0.0
    {
      assert Sk.Entry(b, SlotRow(k), SlotCol(k)) + Sk.Entry(b, SlotCol(k), SlotRow(k)) == 0.0;
    }
    Sym.Ext(Sym.FromFull(s2, Sk.ToFull(b)), Sym.Zero());
  }

  /** Symmetrizing is linear. */
  lemma SymFromFullAdd(s2: real, a: F.RankTwo, b: F.RankTwo)
    ensures Sym.FromFull(s2, F.Add(a, b)) == Sym.Add(Sym.FromFull(s2, a), Sym.FromFull(s2, b))
  {
    forall k: Slot
      ensures Sym.Comp(Sym.FromFull(s2, F.Add(a, b)), k) == Sym.Comp(Sym.Add(Sym.FromFull(s2, a), Sym.FromFull(s2, b)), k)
    {
      SymFromFullAddComp(s2, a, b, k);
    }
    Sym.Ext(Sym.FromFull(s2, F.Add(a, b)), Sym.Add(Sym.FromFull(s2, a), Sym.FromFull(s2, b)));
  }

  lemma SymFromFullAddComp(s2: real, a: F.RankTwo, b: F.RankTwo, k: Slot)
    ensures Sym.Comp(Sym.FromFull(s2, F.Add(a, b)), k) == Sym.Comp(Sym.Add(Sym.FromFull(s2, a), Sym.FromFull(s2, b)), k)
  {
    var r, c := SlotRow(k), SlotCol(k);
    var w, p, q, x, y := Weight(s2, k), F.At(a, r, c), F.At(a, c, r), F.At(b, r, c), F.At(b, c, r);
    assert Sym.Comp(Sym.FromFull(s2, F.Add(a, b)), k) == w * ((p + x) + (q + y)) / 2.0;
    assert Sym.Comp(Sym.Add(Sym.FromFull(s2, a), Sym.FromFull(s2, b)), k) == w * (p + q) / 2.0 + w * (x + y) / 2.0;
    MeanOfSum(w, p, q, x, y);
  }

  lemma MeanOfSum(w: real, p: real, q: real, x: real, y: real)
    ensures w * ((p + x) + (q + y)) / 2.0 == w * (p + q) / 2.0 + w * (x + y) / 2.0
  {
  }

  /** Taking the skew part is linear. */
  lemma SkewFromFullAdd(a: F.RankTwo, b: F.RankTwo)
    ensures Sk.FromFull(F.Add(a, b)) == Sk.Add(Sk.FromFull(a), Sk.FromFull(b))
  {
    Sk.Ext(Sk.FromFull(F.Add(a, b)), Sk.Add(Sk.FromFull(a), Sk.FromFull(b)));
  }

  /** Adding a symmetric tensor to a general one: the order of the operands does
      not matter, subtracting undoes it, the symmetric parts add up and the skew
      part is untouched. */
  lemma AddFullSymProperties(s2: real, a: F.RankTwo, b: Sym.Symmetric)
    requires Root2(s2)
    ensures AddSymFull(s2, b, a) == AddFullSym(s2, a, b)
    ensures SubFullSym(s2, AddFullSym(s2, a, b), b) == a
    ensures SubSymFull(s2, b, a) == F.Neg(SubFullSym(s2, a, b))
    ensures Sym.FromFull(s2, AddFullSym(s2, a, b)) == Sym.Add(Sym.FromFull(s2, a), b)
    ensures Sk.FromFull(AddFullSym(s2, a, b)) == Sk.FromFull(a)
  {
    var m := Sym.ToFull(s2, b);
    F.AddNegProperties(a, m);
    F.Ext(SubSymFull(s2, b, a), F.Neg(SubFullSym(s2, a, b)));
    SymFromFullAdd(s2, a, m);
    Sym.FromFullToFull(s2, b);
    SkewFromFullAdd(a, m);
    CrossProjectionsVanish(s2, b, Sk.Zero());
    Sk.Ext(Sk.Add(Sk.FromFull(a), Sk.Zero()), Sk.FromFull(a));
  }

  /** Adding a skew tensor to a general one: the order of the operands does not
      matter, subtracting undoes it, the skew parts add up and the symmetric
      part is untouched. */
  lemma AddFullSkewProperties(s2: real, a: F.RankTwo, b: Sk.Skew)
    ensures AddSkewFull(b, a) == AddFullSkew(a, b)
    ensures SubFullSkew(AddFullSkew(a, b), b) == a
    ensures SubSkewFull(b, a) == F.Neg(SubFullSkew(a, b))
    ensures Sk.FromFull(AddFullSkew(a, b)) == Sk.Add(Sk.FromFull(a), b)
    ensures Sym.FromFull(s2, AddFullSkew(a, b)) == Sym.FromFull(s2, a)
  {
    var m := Sk.ToFull(b);
    F.AddNegProperties(a, m);
    F.Ext(SubSkewFull(b, a), F.Neg(SubFullSkew(a, b)));
    SkewFromFullAdd(a, m);
    Sk.FromFullToFull(b);
    SymFromFullAdd(s2, a, m);
    CrossProjectionsVanish(s2, Sym.Zero(), b);
    Sym.Ext(Sym.Add(Sym.FromFull(s2, a), Sym.Zero()), Sym.FromFull(s2, a));
  }

  /** Contracting a general tensor with a symmetric one sees only its symmetric
      part, in Mandel form; the operand order does not matter. */
  lemma ContractFullSymAgrees(s2: real, a: F.RankTwo, b: Sym.Symmetric)
    requires Root2(s2)
    ensures ContractFullSym(s2, a, b) == Sym.Contract(Sym.FromFull(s2, a), b)
    ensures ContractSymFull(s2, b, a) == ContractFullSym(s2, a, b)
  {
    var m := Sym.ToFull(s2, b);
    F.ContractIsTrace(a, m);
    Split(s2, a);
    var p, q := Sym.ToFull(s2, Sym.FromFull(s2, a)), Sk.ToFull(Sk.FromFull(a));
    ContractAddLeft(p, q, m);
    SymSkewOrthogonal(s2, b, Sk.FromFull(a));
    F.ContractIsTrace(q, m);
    Sym.ContractAgrees(s2, Sym.FromFull(s2, a), b);
  }

  /** Contracting a general tensor with a skew one sees only its skew part; the
      operand order does not matter. */
  lemma ContractFullSkewAgrees(s2: real, a: F.RankTwo, b: Sk.Skew)
    requires Root2(s2)
    ensures ContractFullSkew(a, b) == Sk.Contract(Sk.FromFull(a), b)
    ensures ContractSkewFull(b, a) == ContractFullSkew(a, b)
  {
    var m := Sk.ToFull(b);
    F.ContractIsTrace(a, m);
    Split(s2, a);
    var p, q := Sym.ToFull(s2, Sym.FromFull(s2, a)), Sk.ToFull(Sk.FromFull(a));
    ContractAddLeft(p, q, m);
    SymSkewOrthogonal(s2, Sym.FromFull(s2, a), b);
    Sk.ContractAgrees(Sk.FromFull(a), b);
  }

  /** Double contraction is linear in its first operand. */
  lemma ContractAddLeft(a: F.RankTwo, b: F.RankTwo, c: F.RankTwo)
    ensures F.Contract(F.Add(a, b), c) == F.Contract(a, c) + F.Contract(b, c)
  {
  }

  /** A symmetric and a skew tensor are orthogonal under double contraction. */
  lemma SymSkewOrthogonal(s2: real, a: Sym.Symmetric, b: Sk.Skew)
    ensures ContractSymSkew(s2, a, b) == 0.0
    ensures ContractSkewSym(s2, b, a) == 0.0
  {
    var m := Sym.ToFull(s2, a);
    Sym.ToFullSymmetric(s2, a);
    Sk.ToFullLayout(b);
    assert F.At(m, 0, 1) == F.At(m, 1, 0) && F.At(m, 0, 2) == F.At(m, 2, 0) && F.At(m, 1, 2) == F.At(m, 2, 1) by {
      assert F.At(F.Transpose(m), 0, 1) == F.At(m, 1, 0);
      assert F.At(F.Transpose(m), 0, 2) == F.At(m, 2, 0);
      assert F.At(F.Transpose(m), 1, 2) == F.At(m, 2, 1);
    }
  }

  /** Multiplying a symmetric tensor by a general one from either side are
      transposes of each other. */
  lemma DotSymTranspose(s2: real, a: Sym.Symmetric, b: F.RankTwo)
    ensures F.Transpose(DotSymFull(s2, a, b)) == DotFullSym(s2, F.Transpose(b), a)
  {
    Sym.ToFullSymmetric(s2, a);
    F.TransposeProperties(Sym.ToFull(s2, a), b);
  }

  /** Multiplying a skew tensor by a general one from either side are opposite
      transposes of each other. */
  lemma DotSkewTranspose(a: Sk.Skew, b: F.RankTwo)
    ensures F.Transpose(DotSkewFull(a, b)) == F.Neg(DotFullSkew(F.Transpose(b), a))
  {
    var w := Sk.ToFull(a);
    Sk.ToFullSkew(a);
    F.TransposeProperties(w, b);
    F.DotNegRight(F.Transpose(b), w);
  }

  /** A general tensor times a skew one acts on vectors through the cross product. */
  lemma DotFullSkewApply(a: Sk.Skew, b: F.RankTwo, x: V.Vector)
    ensures F.Apply(DotFullSkew(b, a), x) == F.Apply(b, V.Cross(Sk.Axial(a), x))
  {
    F.DotApply(b, Sk.ToFull(a), x);
    Sk.ApplyAgrees(a, x);
    Sk.ApplyIsCross(a, x);
  }

  /** The product of a symmetric and a skew tensor has zero trace, in either order. */
  lemma DotSymSkewTrace(s2: real, a: Sym.Symmetric, b: Sk.Skew)
    ensures F.Trace(DotSymSkew(s2, a, b)) == 0.0
    ensures F.Trace(DotSkewSym(s2, b, a)) == 0.0
  {
    var m, w := Sym.ToFull(s2, a), Sk.ToFull(b);
    Sym.ToFullSymmetric(s2, a);
    F.ContractIsTrace(m, w);
    F.ContractIsTrace(w, m);
    SymSkewOrthogonal(s2, a, b);
    Sk.ToFullSkew(b);
    F.ContractIsTrace(F.Neg(w), m);
    F.ContractIsTrace(m, F.Neg(w));
    TraceDotSwap(m, w);
  }

  /** tr(a b) = tr(b a). */
  lemma TraceDotSwap(a: F.RankTwo, b: F.RankTwo)
    ensures F.Trace(F.Dot(a, b)) == F.Trace(F.Dot(b, a))
  {
  }

  /** The symmetric product does not depend on the order of its factors, and
      when the two matrices commute it is exactly their matrix product. */
  lemma DotSymSymProperties(s2: real, a: Sym.Symmetric, b: Sym.Symmetric)
    requires Root2(s2)
    ensures DotSymSym(s2, a, b) == DotSymSym(s2, b, a)
    ensures F.Dot(Sym.ToFull(s2, a), Sym.ToFull(s2, b)) == F.Dot(Sym.ToFull(s2, b), Sym.ToFull(s2, a)) ==>
              Sym.ToFull(s2, DotSymSym(s2, a, b)) == F.Dot(Sym.ToFull(s2, a), Sym.ToFull(s2, b))
  {
    var m, n := Sym.ToFull(s2, a), Sym.ToFull(s2, b);
    Sym.ToFullSymmetric(s2, a);
    Sym.ToFullSymmetric(s2, b);
    F.TransposeProperties(m, n);
    Sym.FromFullTranspose(s2, F.Dot(m, n));
    if F.Dot(m, n) == F.Dot(n, m) {
      Sym.ToFullFromFullSymmetric(s2, F.Dot(m, n));
    }
  }

  /** For any two symmetric tensors, the embedded symmetric product is the
      symmetric part of the matrix product, (AB + BA) / 2. */
  lemma DotSymSymSymmetricPart(s2: real, a: Sym.Symmetric, b: Sym.Symmetric)
    requires Root2(s2)
    ensures Sym.ToFull(s2, DotSymSym(s2, a, b)) ==
            F.Scale(0.5, F.Add(F.Dot(Sym.ToFull(s2, a), Sym.ToFull(s2, b)),
                               F.Dot(Sym.ToFull(s2, b), Sym.ToFull(s2, a))))
  {
    var m, n := Sym.ToFull(s2, a), Sym.ToFull(s2, b);
    Sym.ToFullSymmetric(s2, a);
    Sym.ToFullSymmetric(s2, b);
    F.TransposeProperties(m, n);
    Sym.ToFullFromFull(s2, F.Dot(m, n));
  }

  /** `id()` is neutral for the symmetric product on either side. */
  lemma DotSymSymIdentity(s2: real, a: Sym.Symmetric)
    requires Root2(s2)
    ensures DotSymSym(s2, Sym.Id(), a) == a
    ensures DotSymSym(s2, a, Sym.Id()) == a
  {
    var m := Sym.ToFull(s2, a);
    Sym.IdProperties(s2, a);
    F.IdentityLeft(m);
    F.IdentityRight(m);
    Sym.FromFullToFull(s2, a);
  }

  /** The skew product of two axial vectors a and b is the axial vector a x b / 2. */
  lemma DotSkewSkewIsHalfCross(a: Sk.Skew, b: Sk.Skew)
    ensures Sk.Axial(DotSkewSkew(a, b)) == V.Scale(0.5, V.Cross(Sk.Axial(a), Sk.Axial(b)))
  {
    SkewSkewAxial(a, b);
    HalfCrossOfAxials(a, b);
    var r := Sk.Axial(DotSkewSkew(a, b));
    var x := V.Scale(0.5, V.Cross(Sk.Axial(a), Sk.Axial(b)));
    assert forall k: Ix :: V.At(r, k) == Sk.Comp(DotSkewSkew(a, b), k);
    V.Ext(r, x);
  }

  /** Swapping the factors of the skew product gives the opposite tensor. */
  lemma DotSkewSkewSwap(a: Sk.Skew, b: Sk.Skew)
    ensures DotSkewSkew(b, a) == Sk.Neg(DotSkewSkew(a, b))
  {
    SkewSkewAxial(a, b);
    SkewSkewAxial(b, a);
    Sk.Ext(DotSkewSkew(b, a), Sk.Neg(DotSkewSkew(a, b)));
  }

  /** Half the cross product of two axial vectors, written out. */
  lemma HalfCrossOfAxials(a: Sk.Skew, b: Sk.Skew)
    ensures V.At(V.Scale(0.5, V.Cross(Sk.Axial(a), Sk.Axial(b))), 0) == (Sk.Comp(a, 1) * Sk.Comp(b, 2) - Sk.Comp(a, 2) * Sk.Comp(b, 1)) / 2.0
    ensures V.At(V.Scale(0.5, V.Cross(Sk.Axial(a), Sk.Axial(b))), 1) == (Sk.Comp(a, 2) * Sk.Comp(b, 0) - Sk.Comp(a, 0) * Sk.Comp(b, 2)) / 2.0
    ensures V.At(V.Scale(0.5, V.Cross(Sk.Axial(a), Sk.Axial(b))), 2) == (Sk.Comp(a, 0) * Sk.Comp(b, 1) - Sk.Comp(a, 1) * Sk.Comp(b, 0)) / 2.0
  {
    var u, v := Sk.Axial(a), Sk.Axial(b);
    assert V.At(u, 0) == Sk.Comp(a, 0) && V.At(u, 1) == Sk.Comp(a, 1) && V.At(u, 2) == Sk.Comp(a, 2);
    assert V.At(v, 0) == Sk.Comp(b, 0) && V.At(v, 1) == Sk.Comp(b, 1) && V.At(v, 2) == Sk.Comp(b, 2);
    var c := V.Cross(u, v);
    assert V.At(c, 0) == V.At(u, 1) * V.At(v, 2) - V.At(u, 2) * V.At(v, 1);
    assert V.At(c, 1) == V.At(u, 2) * V.At(v, 0) - V.At(u, 0) * V.At(v, 2);
    assert V.At(c, 2) == V.At(u, 0) * V.At(v, 1) - V.At(u, 1) * V.At(v, 0);
  }

  /** The axial components of the skew product, written out. */
  lemma SkewSkewAxial(a: Sk.Skew, b: Sk.Skew)
    ensures Sk.Comp(DotSkewSkew(a, b), 0) == (Sk.Comp(a, 1) * Sk.Comp(b, 2) - Sk.Comp(a, 2) * Sk.Comp(b, 1)) / 2.0
    ensures Sk.Comp(DotSkewSkew(a, b), 1) == (Sk.Comp(a, 2) * Sk.Comp(b, 0) - Sk.Comp(a, 0) * Sk.Comp(b, 2)) / 2.0
    ensures Sk.Comp(DotSkewSkew(a, b), 2) == (Sk.Comp(a, 0) * Sk.Comp(b, 1) - Sk.Comp(a, 1) * Sk.Comp(b, 0)) / 2.0
  {
    SkewProductEntries(a, b);
  }

  /** The off-diagonal entries of the product of two skew matrices: entry
      (i, j) is b_i a_j. */
  lemma SkewProductEntries(a: Sk.Skew, b: Sk.Skew)
    ensures F.At(F.Dot(Sk.ToFull(a), Sk.ToFull(b)), 2, 1) == Sk.Comp(a, 1) * Sk.Comp(b, 2)
    ensures F.At(F.Dot(Sk.ToFull(a), Sk.ToFull(b)), 1, 2) == Sk.Comp(a, 2) * Sk.Comp(b, 1)
    ensures F.At(F.Dot(Sk.ToFull(a), Sk.ToFull(b)), 0, 2) == Sk.Comp(a, 2) * Sk.Comp(b, 0)
    ensures F.At(F.Dot(Sk.ToFull(a), Sk.ToFull(b)), 2, 0) == Sk.Comp(a, 0) * Sk.Comp(b, 2)
    ensures F.At(F.Dot(Sk.ToFull(a), Sk.ToFull(b)), 1, 0) == Sk.Comp(a, 0) * Sk.Comp(b, 1)
    ensures F.At(F.Dot(Sk.ToFull(a), Sk.ToFull(b)), 0, 1) == Sk.Comp(a, 1) * Sk.Comp(b, 0)
  {
    Sk.ToFullLayout(a);
    Sk.ToFullLayout(b);
  }
}
