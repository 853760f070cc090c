/** Rank-4 tensors symmetric in the first index pair and skew in the second
    (c_ijkl = c_jikl = -c_ijlk), stored as a 6x3 matrix: row p is the Mandel
    slot of the first pair and column k the axial component of the second.
    The row scale makes the 6x3 matrix-vector product with an axial vector
    the Mandel vector of the true double contraction. */
module SymSkewTensor {
  import opened Indexing
  import Storage
  import V = Vectors
  import F = RankTwoFull
  import R4 = RankFourFull
  import Sym = SymmetricTensor
  import Sk = SkewTensor
  import X = RankTwoMixed

  datatype SymSkew = SymSkew(m: Storage.Mat63)

  /** Stored component (p, k): the value of `operator()(p, k)`. */
  function Comp(a: SymSkew, p: Slot, k: Ix): real {
    a.m[p][k]
  }

  /** The tensor whose component (p, k) is f(p, k). */
  function Build(f: (Slot, Ix) -> real): (r: SymSkew)
    ensures forall p: Slot, k: Ix :: Comp(r, p, k) == f(p, k)
  {
    SymSkew(seq(6, (p: int) requires 0 <= p < 6 =>
      seq(3, (k: int) requires 0 <= k < 3 => f(p, k))))
  }

  /** Tensors with the same components are equal. */
  lemma Ext(a: SymSkew, b: SymSkew)
    requires forall p: Slot, k: Ix :: Comp(a, p, k) == Comp(b, p, k)
    ensures a == b
  {
    forall p: Slot
      ensures a.m[p] == b.m[p]
    {
      assert forall k: int :: 0 <= k < 3 ==> a.m[p][k] == Comp(a, p, k);
    }
    assert forall p: int :: 0 <= p < 6 ==> a.m[p] == b.m[p];
  }

  /** The constructor from a 6x3 nested array. */
  function FromRows(rows: seq<seq<real>>): (r: SymSkew)
    requires |rows| == 6 && forall p :: 0 <= p < 6 ==> |rows[p]| == 3
    ensures forall p: Slot, k: Ix :: Comp(r, p, k) == rows[p][k]
  {
    Build((p: Slot, k: Ix) => rows[p][k])
  }

  /** The default-constructed (zero) tensor. */
  function Zero(): SymSkew {
    Build((p: Slot, k: Ix) => 0.0)
  }

  /** `opposite()` and unary minus. */
  function Neg(a: SymSkew): SymSkew {
    Build((p: Slot, k: Ix) => -Comp(a, p, k))
  }

  function Add(a: SymSkew, b: SymSkew): SymSkew {
    Build((p: Slot, k: Ix) => Comp(a, p, k) + Comp(b, p, k))
  }

  function Sub(a: SymSkew, b: SymSkew): SymSkew {
    Build((p: Slot, k: Ix) => Comp(a, p, k) - Comp(b, p, k))
  }

  function Scale(s: real, a: SymSkew): SymSkew {
    Build((p: Slot, k: Ix) => s * Comp(a, p, k))
  }

  function Div(a: SymSkew, s: real): SymSkew
    requires s != 0.0
  {
    Scale(1.0 / s, a)
  }

  /** Row p, read as the axial vector of a skew tensor. */
  function Row(a: SymSkew, p: Slot): Sk.Skew {
    Sk.Skew(a.m[p])
  }

  /** Column k, read as the Mandel vector of a symmetric tensor. */
  function Col(a: SymSkew, k: Ix): Sym.Symmetric {
    Sym.Build((p: Slot) => Comp(a, p, k))
  }

  /** `to_full()`: the slice of the first pair (i, j) is the skew matrix of
      row (slot of ij), with the Mandel scale removed and halved, since each
      axial component stands for two entries of the second pair. */
  function ToFull(s2: real, a: SymSkew): R4.RankFour {
    R4.Build((i: Ix, j: Ix, k: Ix, l: Ix) =>
      InvWeight(s2, MandelSlot(i, j)) / 2.0 * Sk.Entry(Row(a, MandelSlot(i, j)), k, l))
  }

  /** `RankFour::to_symskew()`: the components of the part of c that is
      symmetric in the first pair and skew in the second, read off the four
      signed index orders of each slot and axial pair. */
  function FromFull(s2: real, c: R4.RankFour): SymSkew {
    Build((p: Slot, k: Ix) =>
      Weight(s2, p) / 2.0 *
      (R4.At(c, SlotRow(p), SlotCol(p), AxialRow(k), AxialCol(k)) -
       R4.At(c, SlotRow(p), SlotCol(p), AxialCol(k), AxialRow(k)) +
       R4.At(c, SlotCol(p), SlotRow(p), AxialRow(k), AxialCol(k)) -
       R4.At(c, SlotCol(p), SlotRow(p), AxialCol(k), AxialRow(k))))
  }

  /** The 6x3 matrix times the axial vector of w, as a Mandel vector. */
  function Act(a: SymSkew, w: Sk.Skew): Sym.Symmetric {
    Sym.Build((p: Slot) => V.Dot(Sk.Axial(Row(a, p)), Sk.Axial(w)))
  }

  /** `dot(const Skew &)`: the full product with the embedded skew tensor. */
  function ApplySkew(s2: real, a: SymSkew, w: Sk.Skew): F.RankTwo {
    R4.Apply(ToFull(s2, a), Sk.ToFull(w))
  }

  /** `dot(const Symmetric &)`: the full product with the embedded symmetric tensor. */
  function ApplySym(s2: real, a: SymSkew, x: Sym.Symmetric): F.RankTwo {
    R4.Apply(ToFull(s2, a), Sym.ToFull(s2, x))
  }

  /** `dot(const RankTwo &)`: the full product with a general rank-2 tensor. */
  function ApplyFull(s2: real, a: SymSkew, x: F.RankTwo): F.RankTwo {
    R4.Apply(ToFull(s2, a), x)
  }

  // Scalar identities used by the entry-wise proofs below.

  lemma RoundTripScalar(w: real, v: real, m: real, x: real, e1: real, e2: real, e3: real, e4: real)
    requires w * v == 1.0
    requires x == v / 2.0 * m && e1 == x && e2 == -x && e3 == x && e4 == -x
    ensures w / 2.0 * (e1 - e2 + e3 - e4) == m
  {
    calc {
      w / 2.0 * (e1 - e2 + e3 - e4);
      w / 2.0 * (4.0 * x);
      2.0 * w * (v / 2.0 * m);
      (w * v) * m;
    }
  }

  lemma EmbedScalar(w: real, v: real, sg: real, x: real, m: real)
    requires w * v == 1.0
    requires m == w / 2.0 * (x + x + x + x)
    ensures v / 2.0 * (sg * m) == sg * x
  {
    calc {
      v / 2.0 * (sg * m);
      v / 2.0 * (sg * (2.0 * w * x));
      (w * v) * (sg * x);
    }
  }

  /** Entry (i, j, k, l) of the embedding. */
  lemma ToFullEntry(s2: real, a: SymSkew, i: Ix, j: Ix, k: Ix, l: Ix)
    ensures R4.At(ToFull(s2, a), i, j, k, l) ==
            InvWeight(s2, MandelSlot(i, j)) / 2.0 * (Sign(k, l) * Comp(a, MandelSlot(i, j), Axis(k, l)))
  {
    Sk.EntrySign(Row(a, MandelSlot(i, j)), k, l);
  }

  /** Component (p, k) of `to_symskew()` read off its four entries. */
  lemma FromFullComp(s2: real, c: R4.RankFour, p: Slot, k: Ix)
    ensures Comp(FromFull(s2, c), p, k) ==
            Weight(s2, p) / 2.0 *
            (R4.At(c, SlotRow(p), SlotCol(p), AxialRow(k), AxialCol(k)) -
             R4.At(c, SlotRow(p), SlotCol(p), AxialCol(k), AxialRow(k)) +
             R4.At(c, SlotCol(p), SlotRow(p), AxialRow(k), AxialCol(k)) -
             R4.At(c, SlotCol(p), SlotRow(p), AxialCol(k), AxialRow(k)))
  {
  }

  /** The embedding is symmetric in the first pair and skew in the second. */
  lemma ToFullSymmetries(s2: real, a: SymSkew)
    ensures R4.SymmetricLeft(ToFull(s2, a)) && R4.SkewRight(ToFull(s2, a))
  {
    var c := ToFull(s2, a);
    forall i: Ix, j: Ix, k: Ix, l: Ix
      ensures R4.At(c, j, i, k, l) == R4.At(c, i, j, k, l)
      ensures R4.At(c, i, j, l, k) == -R4.At(c, i, j, k, l)
    {
      SignProperties(k, l, 0);
      ToFullEntry(s2, a, i, j, k, l);
      ToFullEntry(s2, a, j, i, k, l);
      ToFullEntry(s2, a, i, j, l, k);
    }
  }

  /** The slice with the first pair fixed is the scaled skew matrix of a row. */
  lemma LeftSlice(s2: real, a: SymSkew, i: Ix, j: Ix)
    ensures R4.Left(ToFull(s2, a), i, j) ==
            F.Scale(InvWeight(s2, MandelSlot(i, j)) / 2.0, Sk.ToFull(Row(a, MandelSlot(i, j))))
  {
    var p := MandelSlot(i, j);
    var t := F.Scale(InvWeight(s2, p) / 2.0, Sk.ToFull(Row(a, p)));
    forall k: Ix, l: Ix
      ensures F.At(R4.Left(ToFull(s2, a), i, j), k, l) == F.At(t, k, l)
    {
      LeftSliceEntry(s2, a, i, j, k, l);
    }
    F.Ext(R4.Left(ToFull(s2, a), i, j), t);
  }

  lemma LeftSliceEntry(s2: real, a: SymSkew, i: Ix, j: Ix, k: Ix, l: Ix)
    ensures F.At(R4.Left(ToFull(s2, a), i, j), k, l) ==
            F.At(F.Scale(InvWeight(s2, MandelSlot(i, j)) / 2.0, Sk.ToFull(Row(a, MandelSlot(i, j)))), k, l)
  {
    var p := MandelSlot(i, j);
    var c, e := InvWeight(s2, p) / 2.0, Sk.Entry(Row(a, p), k, l);
    LeftOfFullEntry(s2, a, i, j, k, l, c, e);
    ScaledRowEntry(s2, a, i, j, k, l, c, e);
  }

  lemma LeftOfFullEntry(s2: real, a: SymSkew, i: Ix, j: Ix, k: Ix, l: Ix, c: real, e: real)
    requires c == InvWeight(s2, MandelSlot(i, j)) / 2.0 && e == Sk.Entry(Row(a, MandelSlot(i, j)), k, l)
    ensures F.At(R4.Left(ToFull(s2, a), i, j), k, l) == c * e
  {
    R4.SliceEntries(ToFull(s2, a), i, j, k, l);
  }

  lemma ScaledRowEntry(s2: real, a: SymSkew, i: Ix, j: Ix, k: Ix, l: Ix, c: real, e: real)
    requires c == InvWeight(s2, MandelSlot(i, j)) / 2.0 && e == Sk.Entry(Row(a, MandelSlot(i, j)), k, l)
    ensures F.At(F.Scale(InvWeight(s2, MandelSlot(i, j)) / 2.0, Sk.ToFull(Row(a, MandelSlot(i, j)))), k, l) == c * e
  {
    assert F.At(Sk.ToFull(Row(a, MandelSlot(i, j))), k, l) == e;
  }

  /** The slice with the second pair fixed is the signed, halved embedding
      of the column of its axial component. */
  lemma RightSlice(s2: real, a: SymSkew, k: Ix, l: Ix)
    ensures R4.Right(ToFull(s2, a), k, l) ==
            F.Scale(Sign(k, l) / 2.0, Sym.ToFull(s2, Col(a, Axis(k, l))))
  {
    var t := F.Scale(Sign(k, l) / 2.0, Sym.ToFull(s2, Col(a, Axis(k, l))));
    forall i: Ix, j: Ix
      ensures F.At(R4.Right(ToFull(s2, a), k, l), i, j) == F.At(t, i, j)
    {
      RightSliceEntry(s2, a, i, j, k, l);
    }
    F.Ext(R4.Right(ToFull(s2, a), k, l), t);
  }

  lemma RightSliceEntry(s2: real, a: SymSkew, i: Ix, j: Ix, k: Ix, l: Ix)
    ensures F.At(R4.Right(ToFull(s2, a), k, l), i, j) ==
            F.At(F.Scale(Sign(k, l) / 2.0, Sym.ToFull(s2, Col(a, Axis(k, l)))), i, j)
  {
    var p, kk := MandelSlot(i, j), Axis(k, l);
    var v, sg, m := InvWeight(s2, p), Sign(k, l), Comp(a, p, kk);
    RightSliceOfFull(s2, a, i, j, k, l, v, sg, m);
    RightSliceOfCol(s2, a, i, j, k, l, v, sg, m);
    assert v / 2.0 * (sg * m) == sg / 2.0 * (m * v);
  }

  lemma RightSliceOfFull(s2: real, a: SymSkew, i: Ix, j: Ix, k: Ix, l: Ix, v: real, sg: real, m: real)
    requires v == InvWeight(s2, MandelSlot(i, j)) && sg == Sign(k, l) && m == Comp(a, MandelSlot(i, j), Axis(k, l))
    ensures F.At(R4.Right(ToFull(s2, a), k, l), i, j) == v / 2.0 * (sg * m)
  {
    R4.SliceEntries(ToFull(s2, a), i, j, k, l);
    ToFullEntry(s2, a, i, j, k, l);
  }

  lemma RightSliceOfCol(s2: real, a: SymSkew, i: Ix, j: Ix, k: Ix, l: Ix, v: real, sg: real, m: real)
    requires v == InvWeight(s2, MandelSlot(i, j)) && sg == Sign(k, l) && m == Comp(a, MandelSlot(i, j), Axis(k, l))
    ensures F.At(F.Scale(Sign(k, l) / 2.0, Sym.ToFull(s2, Col(a, Axis(k, l)))), i, j) == sg / 2.0 * (m * v)
  {
    var p, kk := MandelSlot(i, j), Axis(k, l);
    assert Sym.Comp(Col(a, kk), p) == m;
    assert F.At(Sym.ToFull(s2, Col(a, kk)), i, j) == m * v;
  }

  /** One entry of the embedding, given the slot, axial component and sign
      its indices select. */
  lemma SignedEntry(s2: real, a: SymSkew, i: Ix, j: Ix, k: Ix, l: Ix, p: Slot, q: Ix, sg: real, x: real)
    requires MandelSlot(i, j) == p && Axis(k, l) == q && Sign(k, l) == sg
    requires x == InvWeight(s2, p) / 2.0 * Comp(a, p, q)
    ensures R4.At(ToFull(s2, a), i, j, k, l) == sg * x
  {
    ToFullEntry(s2, a, i, j, k, l);
    var v, c := InvWeight(s2, p) / 2.0, Comp(a, p, q);
    assert v * (sg * c) == sg * (v * c);
  }

  /** The four signed entries of the embedding at slot p and axial pair k. */
  lemma SlotEntries(s2: real, a: SymSkew, p: Slot, k: Ix, x: real)
    requires x == InvWeight(s2, p) / 2.0 * Comp(a, p, k)
    ensures R4.At(ToFull(s2, a), SlotRow(p), SlotCol(p), AxialRow(k), AxialCol(k)) == x &&
            R4.At(ToFull(s2, a), SlotRow(p), SlotCol(p), AxialCol(k), AxialRow(k)) == -x &&
            R4.At(ToFull(s2, a), SlotCol(p), SlotRow(p), AxialRow(k), AxialCol(k)) == x &&
            R4.At(ToFull(s2, a), SlotCol(p), SlotRow(p), AxialCol(k), AxialRow(k)) == -x
  {
    SlotOfPair(p);
    SignProperties(0, 0, k);
    assert MandelSlot(SlotCol(p), SlotRow(p)) == p;
    SignedEntry(s2, a, SlotRow(p), SlotCol(p), AxialRow(k), AxialCol(k), p, k, 1.0, x);
    SignedEntry(s2, a, SlotRow(p), SlotCol(p), AxialCol(k), AxialRow(k), p, k, -1.0, x);
    SignedEntry(s2, a, SlotCol(p), SlotRow(p), AxialRow(k), AxialCol(k), p, k, 1.0, x);
    SignedEntry(s2, a, SlotCol(p), SlotRow(p), AxialCol(k), AxialRow(k), p, k, -1.0, x);
  }

  /** `to_symskew()` of a tensor holding +-m (scales removed) in the four
      signed entries of slot p and axial pair k gives back m. */
  lemma FromFullOfEntries(s2: real, c: R4.RankFour, p: Slot, k: Ix, m: real, x: real)
    requires Root2(s2)
    requires x == InvWeight(s2, p) / 2.0 * m
    requires R4.At(c, SlotRow(p), SlotCol(p), AxialRow(k), AxialCol(k)) == x &&
             R4.At(c, SlotRow(p), SlotCol(p), AxialCol(k), AxialRow(k)) == -x &&
             R4.At(c, SlotCol(p), SlotRow(p), AxialRow(k), AxialCol(k)) == x &&
             R4.At(c, SlotCol(p), SlotRow(p), AxialCol(k), AxialRow(k)) == -x
    ensures Comp(FromFull(s2, c), p, k) == m
  {
    FromFullComp(s2, c, p, k);
    WeightInverse(s2, p);
    RoundTripScalar(Weight(s2, p), InvWeight(s2, p), m, x,
                    R4.At(c, SlotRow(p), SlotCol(p), AxialRow(k), AxialCol(k)),
                    R4.At(c, SlotRow(p), SlotCol(p), AxialCol(k), AxialRow(k)),
                    R4.At(c, SlotCol(p), SlotRow(p), AxialRow(k), AxialCol(k)),
                    R4.At(c, SlotCol(p), SlotRow(p), AxialCol(k), AxialRow(k)));
  }

  /** `to_symskew()` recovers the components from the embedding. */
  lemma FromFullToFull(s2: real, a: SymSkew)
    requires Root2(s2)
    ensures FromFull(s2, ToFull(s2, a)) == a
  {
    forall p: Slot, k: Ix
      ensures Comp(FromFull(s2, ToFull(s2, a)), p, k) == Comp(a, p, k)
    {
      FromFullToFullComp(s2, a, p, k);
    }
    Ext(FromFull(s2, ToFull(s2, a)), a);
  }

  lemma FromFullToFullComp(s2: real, a: SymSkew, p: Slot, k: Ix)
    requires Root2(s2)
    ensures Comp(FromFull(s2, ToFull(s2, a)), p, k) == Comp(a, p, k)
  {
    var x := InvWeight(s2, p) / 2.0 * Comp(a, p, k);
    SlotEntries(s2, a, p, k, x);
    FromFullOfEntries(s2, ToFull(s2, a), p, k, Comp(a, p, k), x);
  }

  /** The `to_symskew()` component of slot (i, j) and axial component k of a
      tensor symmetric in the first pair and skew in the second. */
  lemma FromFullEntry(s2: real, c: R4.RankFour, i: Ix, j: Ix, k: Ix)
    requires R4.SymmetricLeft(c) && R4.SkewRight(c)
    ensures var p, x := MandelSlot(i, j), R4.At(c, i, j, AxialRow(k), AxialCol(k));
            Comp(FromFull(s2, c), p, k) == Weight(s2, p) / 2.0 * (x + x + x + x)
  {
    var r, q := AxialRow(k), AxialCol(k);
    FromFullComp(s2, c, MandelSlot(i, j), k);
    PairOfSlot(i, j);
    assert R4.At(c, j, i, r, q) == R4.At(c, i, j, r, q);
    assert R4.At(c, i, j, q, r) == -R4.At(c, i, j, r, q);
    assert R4.At(c, j, i, q, r) == -R4.At(c, j, i, r, q);
  }

  /** A tensor skew in its second pair is the signed entry of the canonical
      pair of the axial component, and zero on the diagonal of that pair. */
  lemma SkewRightEntry(c: R4.RankFour, i: Ix, j: Ix, k: Ix, l: Ix)
    requires R4.SkewRight(c)
    ensures R4.At(c, i, j, k, l) == Sign(k, l) * R4.At(c, i, j, AxialRow(Axis(k, l)), AxialCol(Axis(k, l)))
  {
    SignProperties(k, l, Axis(k, l));
    assert R4.At(c, i, j, l, k) == -R4.At(c, i, j, k, l);
  }

  /** One entry of the round trip of a tensor symmetric in the first pair
      and skew in the second. */
  lemma ToFullFromFullEntry(s2: real, c: R4.RankFour, i: Ix, j: Ix, k: Ix, l: Ix)
    requires Root2(s2)
    requires R4.SymmetricLeft(c) && R4.SkewRight(c)
    ensures R4.At(ToFull(s2, FromFull(s2, c)), i, j, k, l) == R4.At(c, i, j, k, l)
  {
    var p, kk := MandelSlot(i, j), Axis(k, l);
    var x := R4.At(c, i, j, AxialRow(kk), AxialCol(kk));
    FromFullEntry(s2, c, i, j, kk);
    SkewRightEntry(c, i, j, k, l);
    EmbeddedEntry(s2, FromFull(s2, c), i, j, k, l, Comp(FromFull(s2, c), p, kk), x, Sign(k, l));
  }

  /** Entry (i, j, k, l) of the embedding of t, whose stored component is
      m = w / 2 (x + x + x + x). */
  lemma EmbeddedEntry(s2: real, t: SymSkew, i: Ix, j: Ix, k: Ix, l: Ix, m: real, x: real, sg: real)
    requires Root2(s2)
    requires m == Comp(t, MandelSlot(i, j), Axis(k, l)) && sg == Sign(k, l)
    requires m == Weight(s2, MandelSlot(i, j)) / 2.0 * (x + x + x + x)
    ensures R4.At(ToFull(s2, t), i, j, k, l) == sg * x
  {
    var p := MandelSlot(i, j);
    ToFullEntry(s2, t, i, j, k, l);
    WeightInverse(s2, p);
    EmbedScalar(Weight(s2, p), InvWeight(s2, p), sg, x, m);
  }

  /** A rank-4 tensor symmetric in its first pair and skew in its second is
      the embedding of its `to_symskew()` projection. */
  lemma ToFullFromFull(s2: real, c: R4.RankFour)
    requires Root2(s2)
    requires R4.SymmetricLeft(c) && R4.SkewRight(c)
    ensures ToFull(s2, FromFull(s2, c)) == c
  {
    forall i: Ix, j: Ix, k: Ix, l: Ix
      ensures R4.At(ToFull(s2, FromFull(s2, c)), i, j, k, l) == R4.At(c, i, j, k, l)
    {
      ToFullFromFullEntry(s2, c, i, j, k, l);
    }
    R4.Ext(ToFull(s2, FromFull(s2, c)), c);
  }

  lemma ToFullAddValue(s2: real, a: SymSkew, b: SymSkew, i: Ix, j: Ix, k: Ix, l: Ix)
    ensures var p, kk := MandelSlot(i, j), Axis(k, l);
            R4.At(ToFull(s2, Add(a, b)), i, j, k, l) == InvWeight(s2, p) / 2.0 * (Sign(k, l) * (Comp(a, p, kk) + Comp(b, p, kk)))
  {
    ToFullEntry(s2, Add(a, b), i, j, k, l);
  }

  lemma ToFullAddParts(s2: real, a: SymSkew, b: SymSkew, i: Ix, j: Ix, k: Ix, l: Ix)
    ensures var p, kk := MandelSlot(i, j), Axis(k, l);
            R4.At(ToFull(s2, a), i, j, k, l) + R4.At(ToFull(s2, b), i, j, k, l) == InvWeight(s2, p) / 2.0 * (Sign(k, l) * (Comp(a, p, kk) + Comp(b, p, kk)))
  {
    ToFullEntry(s2, a, i, j, k, l);
    ToFullEntry(s2, b, i, j, k, l);
  }

  lemma ToFullAddEntry(s2: real, a: SymSkew, b: SymSkew, i: Ix, j: Ix, k: Ix, l: Ix)
    ensures R4.At(ToFull(s2, Add(a, b)), i, j, k, l) == R4.At(ToFull(s2, a), i, j, k, l) + R4.At(ToFull(s2, b), i, j, k, l)
  {
    ToFullAddValue(s2, a, b, i, j, k, l);
    ToFullAddParts(s2, a, b, i, j, k, l);
  }

  lemma ToFullAddPointwise(s2: real, a: SymSkew, b: SymSkew)
    ensures forall i: Ix, j: Ix, k: Ix, l: Ix ::
              R4.At(ToFull(s2, Add(a, b)), i, j, k, l) == R4.At(R4.Add(ToFull(s2, a), ToFull(s2, b)), i, j, k, l)
  {
    forall i: Ix, j: Ix, k: Ix, l: Ix
      ensures R4.At(ToFull(s2, Add(a, b)), i, j, k, l) == R4.At(R4.Add(ToFull(s2, a), ToFull(s2, b)), i, j, k, l)
    {
      ToFullAddEntry(s2, a, b, i, j, k, l);
      R4.AddAt(ToFull(s2, a), ToFull(s2, b), i, j, k, l);
    }
  }

  /** The embedding commutes with addition. */
  lemma ToFullAdd(s2: real, a: SymSkew, b: SymSkew)
    ensures ToFull(s2, Add(a, b)) == R4.Add(ToFull(s2, a), ToFull(s2, b))
  {
    ToFullAddPointwise(s2, a, b);
    R4.Ext(ToFull(s2, Add(a, b)), R4.Add(ToFull(s2, a), ToFull(s2, b)));
  }

  lemma ToFullSubValue(s2: real, a: SymSkew, b: SymSkew, i: Ix, j: Ix, k: Ix, l: Ix)
    ensures var p, kk := MandelSlot(i, j), Axis(k, l);
            R4.At(ToFull(s2, Sub(a, b)), i, j, k, l) == InvWeight(s2, p) / 2.0 * (Sign(k, l) * (Comp(a, p, kk) - Comp(b, p, kk)))
  {
    ToFullEntry(s2, Sub(a, b), i, j, k, l);
  }

  lemma ToFullSubParts(s2: real, a: SymSkew, b: SymSkew, i: Ix, j: Ix, k: Ix, l: Ix)
    ensures var p, kk := MandelSlot(i, j), Axis(k, l);
            R4.At(ToFull(s2, a), i, j, k, l) - R4.At(ToFull(s2, b), i, j, k, l) == InvWeight(s2, p) / 2.0 * (Sign(k, l) * (Comp(a, p, kk) - Comp(b, p, kk)))
  {
    ToFullEntry(s2, a, i, j, k, l);
    ToFullEntry(s2, b, i, j, k, l);
  }

  lemma ToFullSubEntry(s2: real, a: SymSkew, b: SymSkew, i: Ix, j: Ix, k: Ix, l: Ix)
    ensures R4.At(ToFull(s2, Sub(a, b)), i, j, k, l) == R4.At(ToFull(s2, a), i, j, k, l) - R4.At(ToFull(s2, b), i, j, k, l)
  {
    ToFullSubValue(s2, a, b, i, j, k, l);
    ToFullSubParts(s2, a, b, i, j, k, l);
  }

  lemma ToFullSubPointwise(s2: real, a: SymSkew, b: SymSkew)
    ensures forall i: Ix, j: Ix, k: Ix, l: Ix ::
              R4.At(ToFull(s2, Sub(a, b)), i, j, k, l) == R4.At(R4.Sub(ToFull(s2, a), ToFull(s2, b)), i, j, k, l)
  {
    forall i: Ix, j: Ix, k: Ix, l: Ix
      ensures R4.At(ToFull(s2, Sub(a, b)), i, j, k, l) == R4.At(R4.Sub(ToFull(s2, a), ToFull(s2, b)), i, j, k, l)
    {
      ToFullSubEntry(s2, a, b, i, j, k, l);
      R4.SubAt(ToFull(s2, a), ToFull(s2, b), i, j, k, l);
    }
  }

  /** The embedding commutes with subtraction. */
  lemma ToFullSub(s2: real, a: SymSkew, b: SymSkew)
    ensures ToFull(s2, Sub(a, b)) == R4.Sub(ToFull(s2, a), ToFull(s2, b))
  {
    ToFullSubPointwise(s2, a, b);
    R4.Ext(ToFull(s2, Sub(a, b)), R4.Sub(ToFull(s2, a), ToFull(s2, b)));
  }

  lemma ToFullScaleValue(s2: real, a: SymSkew, s: real, i: Ix, j: Ix, k: Ix, l: Ix, x: real)
    requires x == InvWeight(s2, MandelSlot(i, j)) / 2.0 * (Sign(k, l) * (s * Comp(a, MandelSlot(i, j), Axis(k, l))))
    ensures R4.At(ToFull(s2, Scale(s, a)), i, j, k, l) == x
  {
    ToFullEntry(s2, Scale(s, a), i, j, k, l);
  }

  lemma ToFullScaleParts(s2: real, a: SymSkew, s: real, i: Ix, j: Ix, k: Ix, l: Ix, x: real)
    requires x == InvWeight(s2, MandelSlot(i, j)) / 2.0 * (Sign(k, l) * (s * Comp(a, MandelSlot(i, j), Axis(k, l))))
    ensures s * R4.At(ToFull(s2, a), i, j, k, l) == x
  {
    ToFullEntry(s2, a, i, j, k, l);
  }

  lemma ToFullScaleEntry(s2: real, a: SymSkew, s: real, i: Ix, j: Ix, k: Ix, l: Ix)
    ensures R4.At(ToFull(s2, Scale(s, a)), i, j, k, l) == s * R4.At(ToFull(s2, a), i, j, k, l)
  {
    var x := InvWeight(s2, MandelSlot(i, j)) / 2.0 * (Sign(k, l) * (s * Comp(a, MandelSlot(i, j), Axis(k, l))));
    ToFullScaleValue(s2, a, s, i, j, k, l, x);
    ToFullScaleParts(s2, a, s, i, j, k, l, x);
  }

  lemma ToFullScalePointwise(s2: real, a: SymSkew, s: real)
    ensures forall i: Ix, j: Ix, k: Ix, l: Ix ::
              R4.At(ToFull(s2, Scale(s, a)), i, j, k, l) == s * R4.At(ToFull(s2, a), i, j, k, l)
  {
    forall i: Ix, j: Ix, k: Ix, l: Ix
      ensures R4.At(ToFull(s2, Scale(s, a)), i, j, k, l) == s * R4.At(ToFull(s2, a), i, j, k, l)
    {
      ToFullScaleEntry(s2, a, s, i, j, k, l);
    }
  }

  /** The embedding commutes with scaling. */
  lemma ToFullScale(s2: real, a: SymSkew, s: real)
    ensures ToFull(s2, Scale(s, a)) == R4.Scale(s, ToFull(s2, a))
  {
    ToFullScalePointwise(s2, a, s);
    R4.ScaleExt(ToFull(s2, Scale(s, a)), ToFull(s2, a), s);
  }

  lemma ToFullNegValue(s2: real, a: SymSkew, i: Ix, j: Ix, k: Ix, l: Ix)
    ensures var p, kk := MandelSlot(i, j), Axis(k, l);
            R4.At(ToFull(s2, Neg(a)), i, j, k, l) == InvWeight(s2, p) / 2.0 * (Sign(k, l) * (-Comp(a, p, kk)))
  {
    ToFullEntry(s2, Neg(a), i, j, k, l);
  }

  lemma ToFullNegParts(s2: real, a: SymSkew, i: Ix, j: Ix, k: Ix, l: Ix)
    ensures var p, kk := MandelSlot(i, j), Axis(k, l);
            -R4.At(ToFull(s2, a), i, j, k, l) == InvWeight(s2, p) / 2.0 * (Sign(k, l) * (-Comp(a, p, kk)))
  {
    ToFullEntry(s2, a, i, j, k, l);
  }

  lemma ToFullNegEntry(s2: real, a: SymSkew, i: Ix, j: Ix, k: Ix, l: Ix)
    ensures R4.At(ToFull(s2, Neg(a)), i, j, k, l) == -R4.At(ToFull(s2, a), i, j, k, l)
  {
    ToFullNegValue(s2, a, i, j, k, l);
    ToFullNegParts(s2, a, i, j, k, l);
  }

  lemma ToFullNegPointwise(s2: real, a: SymSkew)
    ensures forall i: Ix, j: Ix, k: Ix, l: Ix ::
              R4.At(ToFull(s2, Neg(a)), i, j, k, l) == R4.At(R4.Neg(ToFull(s2, a)), i, j, k, l)
  {
    forall i: Ix, j: Ix, k: Ix, l: Ix
      ensures R4.At(ToFull(s2, Neg(a)), i, j, k, l) == R4.At(R4.Neg(ToFull(s2, a)), i, j, k, l)
    {
      ToFullNegEntry(s2, a, i, j, k, l);
      R4.NegAt(ToFull(s2, a), i, j, k, l);
    }
  }

  /** The embedding commutes with negation. */
  lemma ToFullNeg(s2: real, a: SymSkew)
    ensures ToFull(s2, Neg(a)) == R4.Neg(ToFull(s2, a))
  {
    ToFullNegPointwise(s2, a);
    R4.Ext(ToFull(s2, Neg(a)), R4.Neg(ToFull(s2, a)));
  }

  /** Division by a nonzero scalar undoes scaling by it. */
  lemma DivUndoesScale(a: SymSkew, s: real)
    requires s != 0.0
    ensures Div(Scale(s, a), s) == a
  {
    forall p: Slot, k: Ix
      ensures Comp(Div(Scale(s, a), s), p, k) == Comp(a, p, k)
    {
      R4.InverseScale(s, Comp(a, p, k));
    }
    Ext(Div(Scale(s, a), s), a);
  }

  lemma ApplySkewContract(s2: real, a: SymSkew, w: Sk.Skew, i: Ix, j: Ix, c: real, v: real)
    requires c == InvWeight(s2, MandelSlot(i, j)) / 2.0 && v == Sk.Contract(Row(a, MandelSlot(i, j)), w)
    ensures F.At(ApplySkew(s2, a, w), i, j) == c * v
  {
    var p := MandelSlot(i, j);
    LeftSlice(s2, a, i, j);
    Sk.ContractAgrees(Row(a, p), w);
    R4.ApplyEntry(ToFull(s2, a), Sk.ToFull(w), i, j, c, Sk.ToFull(Row(a, p)), v);
  }

  lemma RowContract(a: SymSkew, w: Sk.Skew, p: Slot, d: real)
    requires d == V.Dot(Sk.Axial(Row(a, p)), Sk.Axial(w))
    ensures Sk.Contract(Row(a, p), w) == 2.0 * d
  {
    Sk.ContractIsDot(Row(a, p), w);
  }

  lemma ActValue(s2: real, a: SymSkew, w: Sk.Skew, i: Ix, j: Ix, h: real, v: real)
    requires h == InvWeight(s2, MandelSlot(i, j)) / 2.0 && v == Sk.Contract(Row(a, MandelSlot(i, j)), w)
    ensures F.At(Sym.ToFull(s2, Act(a, w)), i, j) == h * v
  {
    var p := MandelSlot(i, j);
    var d := V.Dot(Sk.Axial(Row(a, p)), Sk.Axial(w));
    RowContract(a, w, p, d);
    assert Sym.Comp(Act(a, w), p) == d;
    assert d * InvWeight(s2, p) == h * v;
  }

  lemma ApplySkewEntry(s2: real, a: SymSkew, w: Sk.Skew, i: Ix, j: Ix, h: real, v: real)
    requires h == InvWeight(s2, MandelSlot(i, j)) / 2.0 && v == Sk.Contract(Row(a, MandelSlot(i, j)), w)
    ensures F.At(ApplySkew(s2, a, w), i, j) == F.At(Sym.ToFull(s2, Act(a, w)), i, j)
  {
    ApplySkewContract(s2, a, w, i, j, h, v);
    ActValue(s2, a, w, i, j, h, v);
  }

  /** The product with a skew tensor is the 6x3 matrix times its axial
      vector, embedded: the reduced form is the true double contraction. */
  lemma ApplySkewAgrees(s2: real, a: SymSkew, w: Sk.Skew)
    ensures ApplySkew(s2, a, w) == Sym.ToFull(s2, Act(a, w))
  {
    forall i: Ix, j: Ix
      ensures F.At(ApplySkew(s2, a, w), i, j) == F.At(Sym.ToFull(s2, Act(a, w)), i, j)
    {
      var p := MandelSlot(i, j);
      ApplySkewEntry(s2, a, w, i, j, InvWeight(s2, p) / 2.0, Sk.Contract(Row(a, p), w));
    }
    F.Ext(ApplySkew(s2, a, w), Sym.ToFull(s2, Act(a, w)));
  }

  /** The product with a symmetric tensor vanishes: the embedding is skew in
      its second pair. */
  lemma ApplySymZero(s2: real, a: SymSkew, x: Sym.Symmetric)
    ensures ApplySym(s2, a, x) == F.Zero()
  {
    ToFullSymmetries(s2, a);
    Sym.ToFullSymmetric(s2, x);
    R4.ApplySymmetricSkew(ToFull(s2, a), Sym.ToFull(s2, x));
  }

  /** The product with a general rank-2 tensor only sees its skew part. */
  lemma ApplyFullSkewPart(s2: real, a: SymSkew, x: F.RankTwo)
    requires Root2(s2)
    ensures ApplyFull(s2, a, x) == Sym.ToFull(s2, Act(a, Sk.FromFull(x)))
  {
    var c := ToFull(s2, a);
    var ys := Sym.ToFull(s2, Sym.FromFull(s2, x));
    var yw := Sk.ToFull(Sk.FromFull(x));
    X.Split(s2, x);
    R4.ApplyLinear(c, ys, yw);
    ApplySymZero(s2, a, Sym.FromFull(s2, x));
    ApplySkewAgrees(s2, a, Sk.FromFull(x));
    F.Ext(F.Add(F.Zero(), R4.Apply(c, yw)), R4.Apply(c, yw));
  }
}
