/** The three helper products used by the crystal-plasticity models. Each is
    stated by its index formula on the full tensors; the reduced result is
    the projection of that formula onto the class the helper returns, and
    the lemmas show the formula already has that class's symmetries, so the
    projection loses nothing. */
module CrystalHelpers {
  import opened Indexing
  import F = RankTwoFull
  import R4 = RankFourFull
  import Sym = SymmetricTensor
  import Sk = SkewTensor
  import SS = SymSymTensor
  import SW = SymSkewTensor
  import WS = SkewSymTensor

  /** The matrix commutator x y - y x. */
  function Commutator(x: F.RankTwo, y: F.RankTwo): F.RankTwo {
    F.Sub(F.Dot(x, y), F.Dot(y, x))
  }

  /** Skmab Wml - Wkm Smlab: for every fixed (a, b), the commutator of the
      slice S..ab with W. */
  function SymSymSkewFull(c: R4.RankFour, w: F.RankTwo): R4.RankFour {
    R4.Build((k: Ix, l: Ix, a: Ix, b: Ix) => F.At(Commutator(R4.Right(c, a, b), w), k, l))
  }

  /** Dkm Smlab - Skmab Dml: for every fixed (a, b), the commutator of D with
      the slice S..ab. */
  function SymSkewSymFull(c: R4.RankFour, d: F.RankTwo): R4.RankFour {
    R4.Build((k: Ix, l: Ix, a: Ix, b: Ix) => F.At(Commutator(d, R4.Right(c, a, b)), k, l))
  }

  /** C_ijkb e_ka - C_ijal e_bl: for every fixed (i, j), the commutator of
      the transpose of e with the slice C_ij.. . */
  function SpecialFull(c: R4.RankFour, e: F.RankTwo): R4.RankFour {
    R4.Build((i: Ix, j: Ix, a: Ix, b: Ix) => F.At(Commutator(F.Transpose(e), R4.Left(c, i, j)), a, b))
  }

  /** `SymSymSkew_SkewSymSym(S, W)`. */
  function SymSymSkewSkewSymSym(s2: real, s: SS.SymSym, w: Sk.Skew): SS.SymSym {
    SS.FromFull(s2, SymSymSkewFull(SS.ToFull(s2, s), Sk.ToFull(w)))
  }

  /** `SymSkewSym_SkewSymSym(S, D)`. */
  function SymSkewSymSkewSymSym(s2: real, s: WS.SkewSym, d: Sym.Symmetric): SS.SymSym {
    SS.FromFull(s2, SymSkewSymFull(WS.ToFull(s2, s), Sym.ToFull(s2, d)))
  }

  /** `SpecialSymSymSym(S, D)`. */
  function SpecialSymSymSym(s2: real, s: SS.SymSym, d: Sym.Symmetric): SW.SymSkew {
    SW.FromFull(s2, SpecialFull(SS.ToFull(s2, s), Sym.ToFull(s2, d)))
  }

  /** Entry (n, m) is t times entry (m, n): t = 1 for a symmetric and
      t = -1 for a skew matrix. */
  predicate Mirrored(y: F.RankTwo, t: real) {
    forall m: Ix, n: Ix :: F.At(y, n, m) == t * F.At(y, m, n)
  }

  /** A symmetric matrix is mirrored with factor 1 and a skew one with -1,
      and the other way round. */
  lemma MirroredIff(y: F.RankTwo)
    ensures F.Transpose(y) == y <==> Mirrored(y, 1.0)
    ensures F.Transpose(y) == F.Neg(y) <==> Mirrored(y, -1.0)
  {
    forall m: Ix, n: Ix
      ensures F.At(F.Transpose(y), m, n) == F.At(y, n, m) && F.At(F.Neg(y), m, n) == -F.At(y, m, n)
    {
    }
    if Mirrored(y, 1.0) {
      F.Ext(F.Transpose(y), y);
    }
    if Mirrored(y, -1.0) {
      F.Ext(F.Transpose(y), F.Neg(y));
    }
  }

  /** Transposing a difference transposes both terms. */
  lemma TransposeSub(a: F.RankTwo, b: F.RankTwo)
    ensures F.Transpose(F.Sub(a, b)) == F.Sub(F.Transpose(a), F.Transpose(b))
  {
    F.Ext(F.Transpose(F.Sub(a, b)), F.Sub(F.Transpose(a), F.Transpose(b)));
  }

  /** The transpose of a commutator is the commutator of the transposes in
      the other order. */
  lemma TransposeCommutator(x: F.RankTwo, y: F.RankTwo)
    ensures F.Transpose(Commutator(x, y)) == Commutator(F.Transpose(y), F.Transpose(x))
  {
    F.TransposeProperties(x, y);
    F.TransposeProperties(y, x);
    TransposeSub(F.Dot(x, y), F.Dot(y, x));
  }

  /** Swapping or negating both terms of a difference. */
  lemma SubSwap(a: F.RankTwo, b: F.RankTwo)
    ensures F.Sub(F.Neg(a), F.Neg(b)) == F.Sub(b, a)
    ensures F.Sub(b, a) == F.Neg(F.Sub(a, b))
  {
    F.Ext(F.Sub(F.Neg(a), F.Neg(b)), F.Sub(b, a));
    F.Ext(F.Sub(b, a), F.Neg(F.Sub(a, b)));
  }

  /** The commutator of a symmetric and a skew matrix is symmetric. */
  lemma CommutatorSymmetricSkew(x: F.RankTwo, y: F.RankTwo)
    requires F.Transpose(x) == x && F.Transpose(y) == F.Neg(y)
    ensures F.Transpose(Commutator(x, y)) == Commutator(x, y)
  {
    TransposeCommutator(x, y);
    F.DotNeg(y, x);
    F.DotNeg(x, y);
    SubSwap(F.Dot(y, x), F.Dot(x, y));
  }

  /** The commutator of two symmetric matrices is skew. */
  lemma CommutatorSymmetricSymmetric(x: F.RankTwo, y: F.RankTwo)
    requires F.Transpose(x) == x && F.Transpose(y) == y
    ensures F.Transpose(Commutator(x, y)) == F.Neg(Commutator(x, y))
  {
    TransposeCommutator(x, y);
    SubSwap(F.Dot(x, y), F.Dot(y, x));
  }

  /** Commuting each right slice of a tensor symmetric in its first pair
      with a skew matrix keeps both minor symmetries of a symmetric second
      pair. */
  lemma SymSymSkewFullSymmetries(c: R4.RankFour, w: F.RankTwo)
    requires R4.SymmetricLeft(c) && R4.SymmetricRight(c) && F.Transpose(w) == F.Neg(w)
    ensures R4.SymmetricLeft(SymSymSkewFull(c, w)) && R4.SymmetricRight(SymSymSkewFull(c, w))
  {
    var r := SymSymSkewFull(c, w);
    forall k: Ix, l: Ix, a: Ix, b: Ix
      ensures R4.At(r, l, k, a, b) == R4.At(r, k, l, a, b)
      ensures R4.At(r, k, l, b, a) == R4.At(r, k, l, a, b)
    {
      R4.RightSymmetry(c, a, b);
      R4.RightSwap(c, a, b);
      CommutatorSymmetricSkew(R4.Right(c, a, b), w);
      MirroredIff(Commutator(R4.Right(c, a, b), w));
    }
  }

  /** Commuting a symmetric matrix with each right slice of a tensor skew in
      its first pair gives a tensor symmetric in both pairs. */
  lemma SymSkewSymFullSymmetries(c: R4.RankFour, d: F.RankTwo)
    requires R4.SkewLeft(c) && R4.SymmetricRight(c) && F.Transpose(d) == d
    ensures R4.SymmetricLeft(SymSkewSymFull(c, d)) && R4.SymmetricRight(SymSkewSymFull(c, d))
  {
    var r := SymSkewSymFull(c, d);
    forall k: Ix, l: Ix, a: Ix, b: Ix
      ensures R4.At(r, l, k, a, b) == R4.At(r, k, l, a, b)
      ensures R4.At(r, k, l, b, a) == R4.At(r, k, l, a, b)
    {
      R4.RightSymmetry(c, a, b);
      R4.RightSwap(c, a, b);
      CommutatorSymmetricSkew(d, R4.Right(c, a, b));
      MirroredIff(Commutator(d, R4.Right(c, a, b)));
    }
  }

  /** Commuting a symmetric matrix with each left slice of a tensor symmetric
      in both pairs gives a tensor symmetric in the first pair and skew in
      the second. */
  lemma SpecialFullSymmetries(c: R4.RankFour, e: F.RankTwo)
    requires R4.SymmetricLeft(c) && R4.SymmetricRight(c) && F.Transpose(e) == e
    ensures R4.SymmetricLeft(SpecialFull(c, e)) && R4.SkewRight(SpecialFull(c, e))
  {
    var r := SpecialFull(c, e);
    forall i: Ix, j: Ix, a: Ix, b: Ix
      ensures R4.At(r, j, i, a, b) == R4.At(r, i, j, a, b)
      ensures R4.At(r, i, j, b, a) == -R4.At(r, i, j, a, b)
    {
      R4.LeftSymmetry(c, i, j);
      R4.LeftSwap(c, i, j);
      CommutatorSymmetricSymmetric(F.Transpose(e), R4.Left(c, i, j));
      MirroredIff(Commutator(F.Transpose(e), R4.Left(c, i, j)));
    }
  }

  /** The embedding of `SymSymSkew_SkewSymSym(S, W)` is exactly the index
      formula on the embeddings of S and W. */
  lemma SymSymSkewSkewSymSymExact(s2: real, s: SS.SymSym, w: Sk.Skew)
    requires Root2(s2)
    ensures SS.ToFull(s2, SymSymSkewSkewSymSym(s2, s, w)) == SymSymSkewFull(SS.ToFull(s2, s), Sk.ToFull(w))
  {
    SS.ToFullMinorSymmetric(s2, s);
    Sk.ToFullSkew(w);
    SymSymSkewFullSymmetries(SS.ToFull(s2, s), Sk.ToFull(w));
    SS.ToFullFromFull(s2, SymSymSkewFull(SS.ToFull(s2, s), Sk.ToFull(w)));
  }

  /** The embedding of `SymSkewSym_SkewSymSym(S, D)` is exactly the index
      formula on the embeddings of S and D. */
  lemma SymSkewSymSkewSymSymExact(s2: real, s: WS.SkewSym, d: Sym.Symmetric)
    requires Root2(s2)
    ensures SS.ToFull(s2, SymSkewSymSkewSymSym(s2, s, d)) == SymSkewSymFull(WS.ToFull(s2, s), Sym.ToFull(s2, d))
  {
    WS.ToFullSymmetries(s2, s);
    Sym.ToFullSymmetric(s2, d);
    SymSkewSymFullSymmetries(WS.ToFull(s2, s), Sym.ToFull(s2, d));
    SS.ToFullFromFull(s2, SymSkewSymFull(WS.ToFull(s2, s), Sym.ToFull(s2, d)));
  }

  /** The embedding of `SpecialSymSymSym(S, D)` is exactly the index formula
      on the embeddings of S and D. */
  lemma SpecialSymSymSymExact(s2: real, s: SS.SymSym, d: Sym.Symmetric)
    requires Root2(s2)
    ensures SW.ToFull(s2, SpecialSymSymSym(s2, s, d)) == SpecialFull(SS.ToFull(s2, s), Sym.ToFull(s2, d))
  {
    SS.ToFullMinorSymmetric(s2, s);
    Sym.ToFullSymmetric(s2, d);
    F.TransposeProperties(Sym.ToFull(s2, d), Sym.ToFull(s2, d));
    SpecialFullSymmetries(SS.ToFull(s2, s), Sym.ToFull(s2, d));
    SW.ToFullFromFull(s2, SpecialFull(SS.ToFull(s2, s), Sym.ToFull(s2, d)));
  }
}
