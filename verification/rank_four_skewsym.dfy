/** Rank-4 tensors skew in the first index pair and symmetric in the second
    (c_ijkl = -c_jikl = c_ijlk), stored as a 3x6 matrix: row k is the axial
    component of the first pair and column q the Mandel slot of the second.
    The column scale makes the 3x6 matrix-vector product with a Mandel
    vector the axial vector of the true double contraction. */
module SkewSymTensor {
  import opened Indexing
  import Storage
  import F = RankTwoFull
  import R4 = RankFourFull
  import Sym = SymmetricTensor
  import Sk = SkewTensor
  import X = RankTwoMixed

  datatype SkewSym = SkewSym(m: Storage.Mat36)

  /** Stored component (k, q): the value of `operator()(k, q)`. */
  function Comp(a: SkewSym, k: Ix, q: Slot): real {
    a.m[k][q]
  }

  /** The tensor whose component (k, q) is f(k, q). */
  function Build(f: (Ix, Slot) -> real): (r: SkewSym)
    ensures forall k: Ix, q: Slot :: Comp(r, k, q) == f(k, q)
  {
    SkewSym(seq(3, (k: int) requires 0 <= k < 3 =>
      seq(6, (q: int) requires 0 <= q < 6 => f(k, q))))
  }

  /** Tensors with the same components are equal. */
  lemma Ext(a: SkewSym, b: SkewSym)
    requires forall k: Ix, q: Slot :: Comp(a, k, q) == Comp(b, k, q)
    ensures a == b
  {
    forall k: Ix
      ensures a.m[k] == b.m[k]
    {
      assert forall q: int :: 0 <= q < 6 ==> a.m[k][q] == Comp(a, k, q);
    }
    assert forall k: int :: 0 <= k < 3 ==> a.m[k] == b.m[k];
  }

  /** The constructor from a 3x6 nested array. */
  function FromRows(rows: seq<seq<real>>): (r: SkewSym)
    requires |rows| == 3 && forall k :: 0 <= k < 3 ==> |rows[k]| == 6
    ensures forall k: Ix, q: Slot :: Comp(r, k, q) == rows[k][q]
  {
    Build((k: Ix, q: Slot) => rows[k][q])
  }

  /** The default-constructed (zero) tensor. */
  function Zero(): SkewSym {
    Build((k: Ix, q: Slot) => 0.0)
  }

  /** `opposite()` and unary minus. */
  function Neg(a: SkewSym): SkewSym {
    Build((k: Ix, q: Slot) => -Comp(a, k, q))
  }

  function Add(a: SkewSym, b: SkewSym): SkewSym {
    Build((k: Ix, q: Slot) => Comp(a, k, q) + Comp(b, k, q))
  }

  function Sub(a: SkewSym, b: SkewSym): SkewSym {
    Build((k: Ix, q: Slot) => Comp(a, k, q) - Comp(b, k, q))
  }

  function Scale(s: real, a: SkewSym): SkewSym {
    Build((k: Ix, q: Slot) => s * Comp(a, k, q))
  }

  function Div(a: SkewSym, s: real): SkewSym
    requires s != 0.0
  {
    Scale(1.0 / s, a)
  }

  /** Row k, read as the Mandel vector of a symmetric tensor. */
  function Row(a: SkewSym, k: Ix): Sym.Symmetric {
    Sym.Symmetric(a.m[k])
  }

  /** Column q, read as the axial vector of a skew tensor. */
  function Col(a: SkewSym, q: Slot): Sk.Skew {
    Sk.Build((k: Ix) => Comp(a, k, q))
  }

  /** `to_full()`: entry (i, j, k, l) is the component of the axial index
      of (i, j) and the slot of (k, l), with the sign of (i, j) in the skew
      matrix and the Mandel scale removed. */
  function ToFull(s2: real, a: SkewSym): R4.RankFour {
    R4.Build((i: Ix, j: Ix, k: Ix, l: Ix) =>
      Sign(i, j) * (Comp(a, Axis(i, j), MandelSlot(k, l)) * InvWeight(s2, MandelSlot(k, l))))
  }

  /** `RankFour::to_skewsym()`: the components of the part of c that is skew
      in the first pair and symmetric in the second, read off the four
      signed index orders of each axial pair and slot. */
  function FromFull(s2: real, c: R4.RankFour): SkewSym {
    Build((k: Ix, q: Slot) =>
      Weight(s2, q) / 4.0 *
      (R4.At(c, AxialRow(k), AxialCol(k), SlotRow(q), SlotCol(q)) +
       R4.At(c, AxialRow(k), AxialCol(k), SlotCol(q), SlotRow(q)) -
       R4.At(c, AxialCol(k), AxialRow(k), SlotRow(q), SlotCol(q)) -
       R4.At(c, AxialCol(k), AxialRow(k), SlotCol(q), SlotRow(q))))
  }

  /** The 3x6 matrix times the Mandel vector of x, as an axial vector. */
  function Act(a: SkewSym, x: Sym.Symmetric): Sk.Skew {
    Sk.Build((k: Ix) => Sym.Contract(Row(a, k), x))
  }

  /** `dot(const Symmetric &)`: the full product with the embedded symmetric tensor. */
  function ApplySym(s2: real, a: SkewSym, x: Sym.Symmetric): F.RankTwo {
    R4.Apply(ToFull(s2, a), Sym.ToFull(s2, x))
  }

  /** `dot(const Skew &)`: the full product with the embedded skew tensor. */
  function ApplySkew(s2: real, a: SkewSym, w: Sk.Skew): F.RankTwo {
    R4.Apply(ToFull(s2, a), Sk.ToFull(w))
  }

  /** `dot(const RankTwo &)`: the full product with a general rank-2 tensor. */
  function ApplyFull(s2: real, a: SkewSym, x: F.RankTwo): F.RankTwo {
    R4.Apply(ToFull(s2, a), x)
  }

  /** `douter(Skew, Symmetric)`: the outer product w_ij b_kl, whose 3x6
      matrix is the outer product of the axial and the Mandel vector. */
  function Douter(w: Sk.Skew, b: Sym.Symmetric): SkewSym {
    Build((k: Ix, q: Slot) => Sk.Comp(w, k) * Sym.Comp(b, q))
  }

  // Scalar identities used by the entry-wise proofs below.

  lemma RoundTripScalar(w: real, v: real, m: real, x: real, e1: real, e2: real, e3: real, e4: real)
    requires w * v == 1.0
    requires x == m * v && e1 == x && e2 == x && e3 == -x && e4 == -x
    ensures w / 4.0 * (e1 + e2 - e3 - e4) == m
  {
    calc {
      w / 4.0 * (e1 + e2 - e3 - e4);
      w * x;
      (w * v) * m;
    }
  }

  lemma EmbedScalar(w: real, v: real, sg: real, x: real, m: real)
    requires w * v == 1.0
    requires m == w / 4.0 * (x + x + x + x)
    ensures sg * (m * v) == sg * x
  {
    calc {
      sg * (m * v);
      sg * ((w * v) * x);
    }
  }

  /** Entry (i, j, k, l) of the embedding. */
  lemma ToFullEntry(s2: real, a: SkewSym, i: Ix, j: Ix, k: Ix, l: Ix)
    ensures R4.At(ToFull(s2, a), i, j, k, l) ==
            Sign(i, j) * (Comp(a, Axis(i, j), MandelSlot(k, l)) * InvWeight(s2, MandelSlot(k, l)))
  {
  }

  /** Component (k, q) of `to_skewsym()` read off its four entries. */
  lemma FromFullComp(s2: real, c: R4.RankFour, k: Ix, q: Slot)
    ensures Comp(FromFull(s2, c), k, q) ==
            Weight(s2, q) / 4.0 *
            (R4.At(c, AxialRow(k), AxialCol(k), SlotRow(q), SlotCol(q)) +
             R4.At(c, AxialRow(k), AxialCol(k), SlotCol(q), SlotRow(q)) -
             R4.At(c, AxialCol(k), AxialRow(k), SlotRow(q), SlotCol(q)) -
             R4.At(c, AxialCol(k), AxialRow(k), SlotCol(q), SlotRow(q)))
  {
  }

  /** The embedding is skew in the first pair and symmetric in the second. */
  lemma ToFullSymmetries(s2: real, a: SkewSym)
    ensures R4.SkewLeft(ToFull(s2, a)) && R4.SymmetricRight(ToFull(s2, a))
  {
    var c := ToFull(s2, a);
    forall i: Ix, j: Ix, k: Ix, l: Ix
      ensures R4.At(c, j, i, k, l) == -R4.At(c, i, j, k, l)
      ensures R4.At(c, i, j, l, k) == R4.At(c, i, j, k, l)
    {
      SignProperties(i, j, 0);
      ToFullEntry(s2, a, i, j, k, l);
      ToFullEntry(s2, a, j, i, k, l);
      ToFullEntry(s2, a, i, j, l, k);
    }
  }

  /** The slice with the first pair fixed is the signed embedding of the row
      of its axial component. */
  lemma LeftSlice(s2: real, a: SkewSym, i: Ix, j: Ix)
    ensures R4.Left(ToFull(s2, a), i, j) == F.Scale(Sign(i, j), Sym.ToFull(s2, Row(a, Axis(i, j))))
  {
    var t := F.Scale(Sign(i, j), Sym.ToFull(s2, Row(a, Axis(i, j))));
    forall k: Ix, l: Ix
      ensures F.At(R4.Left(ToFull(s2, a), i, j), k, l) == F.At(t, k, l)
    {
      LeftSliceEntry(s2, a, i, j, k, l);
    }
    F.Ext(R4.Left(ToFull(s2, a), i, j), t);
  }

  lemma LeftSliceEntry(s2: real, a: SkewSym, i: Ix, j: Ix, k: Ix, l: Ix)
    ensures F.At(R4.Left(ToFull(s2, a), i, j), k, l) ==
            F.At(F.Scale(Sign(i, j), Sym.ToFull(s2, Row(a, Axis(i, j)))), k, l)
  {
    var kk, q := Axis(i, j), MandelSlot(k, l);
    var v, sg, m := InvWeight(s2, q), Sign(i, j), Comp(a, kk, q);
    LeftSliceOfFull(s2, a, i, j, k, l, v, sg, m);
    LeftSliceOfRow(s2, a, i, j, k, l, v, sg, m);
  }

  lemma LeftSliceOfFull(s2: real, a: SkewSym, i: Ix, j: Ix, k: Ix, l: Ix, v: real, sg: real, m: real)
    requires v == InvWeight(s2, MandelSlot(k, l)) && sg == Sign(i, j) && m == Comp(a, Axis(i, j), MandelSlot(k, l))
    ensures F.At(R4.Left(ToFull(s2, a), i, j), k, l) == sg * (m * v)
  {
    R4.SliceEntries(ToFull(s2, a), i, j, k, l);
  }

  lemma LeftSliceOfRow(s2: real, a: SkewSym, i: Ix, j: Ix, k: Ix, l: Ix, v: real, sg: real, m: real)
    requires v == InvWeight(s2, MandelSlot(k, l)) && sg == Sign(i, j) && m == Comp(a, Axis(i, j), MandelSlot(k, l))
    ensures F.At(F.Scale(Sign(i, j), Sym.ToFull(s2, Row(a, Axis(i, j)))), k, l) == sg * (m * v)
  {
    var kk := Axis(i, j);
    Sym.ToFullAt(s2, Row(a, kk), k, l);
    assert Sym.Comp(Row(a, kk), MandelSlot(k, l)) == m;
  }

  /** The slice with the second pair fixed is the scaled skew matrix of a column. */
  lemma RightSlice(s2: real, a: SkewSym, k: Ix, l: Ix)
    ensures R4.Right(ToFull(s2, a), k, l) == F.Scale(InvWeight(s2, MandelSlot(k, l)), Sk.ToFull(Col(a, MandelSlot(k, l))))
  {
    var t := F.Scale(InvWeight(s2, MandelSlot(k, l)), Sk.ToFull(Col(a, MandelSlot(k, l))));
    forall i: Ix, j: Ix
      ensures F.At(R4.Right(ToFull(s2, a), k, l), i, j) == F.At(t, i, j)
    {
      RightSliceEntry(s2, a, i, j, k, l);
    }
    F.Ext(R4.Right(ToFull(s2, a), k, l), t);
  }

  lemma RightSliceEntry(s2: real, a: SkewSym, i: Ix, j: Ix, k: Ix, l: Ix)
    ensures F.At(R4.Right(ToFull(s2, a), k, l), i, j) ==
            F.At(F.Scale(InvWeight(s2, MandelSlot(k, l)), Sk.ToFull(Col(a, MandelSlot(k, l)))), i, j)
  {
    var kk, q := Axis(i, j), MandelSlot(k, l);
    var v, sg, m := InvWeight(s2, q), Sign(i, j), Comp(a, kk, q);
    RightSliceOfFull(s2, a, i, j, k, l, v, sg, m);
    RightSliceOfCol(s2, a, i, j, k, l, v, sg, m);
    assert sg * (m * v) == v * (sg * m);
  }

  lemma RightSliceOfFull(s2: real, a: SkewSym, i: Ix, j: Ix, k: Ix, l: Ix, v: real, sg: real, m: real)
    requires v == InvWeight(s2, MandelSlot(k, l)) && sg == Sign(i, j) && m == Comp(a, Axis(i, j), MandelSlot(k, l))
    ensures F.At(R4.Right(ToFull(s2, a), k, l), i, j) == sg * (m * v)
  {
    R4.SliceEntries(ToFull(s2, a), i, j, k, l);
  }

  lemma RightSliceOfCol(s2: real, a: SkewSym, i: Ix, j: Ix, k: Ix, l: Ix, v: real, sg: real, m: real)
    requires v == InvWeight(s2, MandelSlot(k, l)) && sg == Sign(i, j) && m == Comp(a, Axis(i, j), MandelSlot(k, l))
    ensures F.At(F.Scale(InvWeight(s2, MandelSlot(k, l)), Sk.ToFull(Col(a, MandelSlot(k, l)))), i, j) == v * (sg * m)
  {
    var q := MandelSlot(k, l);
    Sk.EntrySign(Col(a, q), i, j);
    assert F.At(Sk.ToFull(Col(a, q)), i, j) == Sk.Entry(Col(a, q), i, j);
  }

  /** One entry of the embedding, given the axial component, sign and slot
      its indices select. */
  lemma SignedEntry(s2: real, a: SkewSym, i: Ix, j: Ix, k: Ix, l: Ix, kk: Ix, q: Slot, sg: real, x: real)
    requires Axis(i, j) == kk && Sign(i, j) == sg && MandelSlot(k, l) == q
    requires x == Comp(a, kk, q) * InvWeight(s2, q)
    ensures R4.At(ToFull(s2, a), i, j, k, l) == sg * x
  {
    ToFullEntry(s2, a, i, j, k, l);
  }

  /** The four signed entries of the embedding at axial pair k and slot q. */
  lemma SlotEntries(s2: real, a: SkewSym, k: Ix, q: Slot, x: real)
    requires x == Comp(a, k, q) * InvWeight(s2, q)
    ensures R4.At(ToFull(s2, a), AxialRow(k), AxialCol(k), SlotRow(q), SlotCol(q)) == x &&
            R4.At(ToFull(s2, a), AxialRow(k), AxialCol(k), SlotCol(q), SlotRow(q)) == x &&
            R4.At(ToFull(s2, a), AxialCol(k), AxialRow(k), SlotRow(q), SlotCol(q)) == -x &&
            R4.At(ToFull(s2, a), AxialCol(k), AxialRow(k), SlotCol(q), SlotRow(q)) == -x
  {
    SlotOfPair(q);
    SignProperties(0, 0, k);
    assert MandelSlot(SlotCol(q), SlotRow(q)) == q;
    SignedEntry(s2, a, AxialRow(k), AxialCol(k), SlotRow(q), SlotCol(q), k, q, 1.0, x);
    SignedEntry(s2, a, AxialRow(k), AxialCol(k), SlotCol(q), SlotRow(q), k, q, 1.0, x);
    SignedEntry(s2, a, AxialCol(k), AxialRow(k), SlotRow(q), SlotCol(q), k, q, -1.0, x);
    SignedEntry(s2, a, AxialCol(k), AxialRow(k), SlotCol(q), SlotRow(q), k, q, -1.0, x);
  }

  /** `to_skewsym()` of a tensor holding +-m (scale removed) in the four
      signed entries of axial pair k and slot q gives back m. */
  lemma FromFullOfEntries(s2: real, c: R4.RankFour, k: Ix, q: Slot, m: real, x: real)
    requires Root2(s2)
    requires x == m * InvWeight(s2, q)
    requires R4.At(c, AxialRow(k), AxialCol(k), SlotRow(q), SlotCol(q)) == x &&
             R4.At(c, AxialRow(k), AxialCol(k), SlotCol(q), SlotRow(q)) == x &&
             R4.At(c, AxialCol(k), AxialRow(k), SlotRow(q), SlotCol(q)) == -x &&
             R4.At(c, AxialCol(k), AxialRow(k), SlotCol(q), SlotRow(q)) == -x
    ensures Comp(FromFull(s2, c), k, q) == m
  {
    FromFullComp(s2, c, k, q);
    WeightInverse(s2, q);
    RoundTripScalar(Weight(s2, q), InvWeight(s2, q), m, x,
                    R4.At(c, AxialRow(k), AxialCol(k), SlotRow(q), SlotCol(q)),
                    R4.At(c, AxialRow(k), AxialCol(k), SlotCol(q), SlotRow(q)),
                    R4.At(c, AxialCol(k), AxialRow(k), SlotRow(q), SlotCol(q)),
                    R4.At(c, AxialCol(k), AxialRow(k), SlotCol(q), SlotRow(q)));
  }

  /** `to_skewsym()` recovers the components from the embedding. */
  lemma FromFullToFull(s2: real, a: SkewSym)
    requires Root2(s2)
    ensures FromFull(s2, ToFull(s2, a)) == a
  {
    forall k: Ix, q: Slot
      ensures Comp(FromFull(s2, ToFull(s2, a)), k, q) == Comp(a, k, q)
    {
      FromFullToFullComp(s2, a, k, q);
    }
    Ext(FromFull(s2, ToFull(s2, a)), a);
  }

  lemma FromFullToFullComp(s2: real, a: SkewSym, k: Ix, q: Slot)
    requires Root2(s2)
    ensures Comp(FromFull(s2, ToFull(s2, a)), k, q) == Comp(a, k, q)
  {
    var x := Comp(a, k, q) * InvWeight(s2, q);
    SlotEntries(s2, a, k, q, x);
    FromFullOfEntries(s2, ToFull(s2, a), k, q, Comp(a, k, q), x);
  }

  /** The `to_skewsym()` component of axial component k and slot (i, j) of a
      tensor skew in the first pair and symmetric in the second. */
  lemma FromFullEntry(s2: real, c: R4.RankFour, k: Ix, i: Ix, j: Ix)
    requires R4.SkewLeft(c) && R4.SymmetricRight(c)
    ensures var q, x := MandelSlot(i, j), R4.At(c, AxialRow(k), AxialCol(k), i, j);
            Comp(FromFull(s2, c), k, q) == Weight(s2, q) / 4.0 * (x + x + x + x)
  {
    var r, t := AxialRow(k), AxialCol(k);
    FromFullComp(s2, c, k, MandelSlot(i, j));
    PairOfSlot(i, j);
    assert R4.At(c, r, t, j, i) == R4.At(c, r, t, i, j);
    assert R4.At(c, t, r, i, j) == -R4.At(c, r, t, i, j);
    assert R4.At(c, t, r, j, i) == -R4.At(c, r, t, j, i);
  }

  /** A tensor skew in its first pair is the signed entry of the canonical
      pair of the axial component. */
  lemma SkewLeftEntry(c: R4.RankFour, i: Ix, j: Ix, k: Ix, l: Ix)
    requires R4.SkewLeft(c)
    ensures R4.At(c, i, j, k, l) == Sign(i, j) * R4.At(c, AxialRow(Axis(i, j)), AxialCol(Axis(i, j)), k, l)
  {
    SignProperties(i, j, Axis(i, j));
    assert R4.At(c, j, i, k, l) == -R4.At(c, i, j, k, l);
  }

  /** One entry of the round trip of a tensor skew in the first pair and
      symmetric in the second. */
  lemma ToFullFromFullEntry(s2: real, c: R4.RankFour, i: Ix, j: Ix, k: Ix, l: Ix)
    requires Root2(s2)
    requires R4.SkewLeft(c) && R4.SymmetricRight(c)
    ensures R4.At(ToFull(s2, FromFull(s2, c)), i, j, k, l) == R4.At(c, i, j, k, l)
  {
    var kk, q := Axis(i, j), MandelSlot(k, l);
    var x := R4.At(c, AxialRow(kk), AxialCol(kk), k, l);
    FromFullEntry(s2, c, kk, k, l);
    SkewLeftEntry(c, i, j, k, l);
    EmbeddedEntry(s2, FromFull(s2, c), i, j, k, l, Comp(FromFull(s2, c), kk, q), x, Sign(i, j));
  }

  /** Entry (i, j, k, l) of the embedding of t, whose stored component is
      m = w / 4 (x + x + x + x). */
  lemma EmbeddedEntry(s2: real, t: SkewSym, i: Ix, j: Ix, k: Ix, l: Ix, m: real, x: real, sg: real)
    requires Root2(s2)
    requires m == Comp(t, Axis(i, j), MandelSlot(k, l)) && sg == Sign(i, j)
    requires m == Weight(s2, MandelSlot(k, l)) / 4.0 * (x + x + x + x)
    ensures R4.At(ToFull(s2, t), i, j, k, l) == sg * x
  {
    var q := MandelSlot(k, l);
    ToFullEntry(s2, t, i, j, k, l);
    WeightInverse(s2, q);
    EmbedScalar(Weight(s2, q), InvWeight(s2, q), sg, x, m);
  }

  /** A rank-4 tensor skew in its first pair and symmetric in its second is
      the embedding of its `to_skewsym()` projection. */
  lemma ToFullFromFull(s2: real, c: R4.RankFour)
    requires Root2(s2)
    requires R4.SkewLeft(c) && R4.SymmetricRight(c)
    ensures ToFull(s2, FromFull(s2, c)) == c
  {
    forall i: Ix, j: Ix, k: Ix, l: Ix
      ensures R4.At(ToFull(s2, FromFull(s2, c)), i, j, k, l) == R4.At(c, i, j, k, l)
    {
      ToFullFromFullEntry(s2, c, i, j, k, l);
    }
    R4.Ext(ToFull(s2, FromFull(s2, c)), c);
  }

  lemma ToFullAddValue(s2: real, a: SkewSym, b: SkewSym, i: Ix, j: Ix, k: Ix, l: Ix)
    ensures var kk, q := Axis(i, j), MandelSlot(k, l);
            R4.At(ToFull(s2, Add(a, b)), i, j, k, l) == Sign(i, j) * ((Comp(a, kk, q) + Comp(b, kk, q)) * InvWeight(s2, q))
  {
    ToFullEntry(s2, Add(a, b), i, j, k, l);
  }

  lemma ToFullAddParts(s2: real, a: SkewSym, b: SkewSym, i: Ix, j: Ix, k: Ix, l: Ix)
    ensures var kk, q := Axis(i, j), MandelSlot(k, l);
            R4.At(ToFull(s2, a), i, j, k, l) + R4.At(ToFull(s2, b), i, j, k, l) == Sign(i, j) * ((Comp(a, kk, q) + Comp(b, kk, q)) * InvWeight(s2, q))
  {
    ToFullEntry(s2, a, i, j, k, l);
    ToFullEntry(s2, b, i, j, k, l);
  }

  lemma ToFullAddEntry(s2: real, a: SkewSym, b: SkewSym, i: Ix, j: Ix, k: Ix, l: Ix)
    ensures R4.At(ToFull(s2, Add(a, b)), i, j, k, l) == R4.At(ToFull(s2, a), i, j, k, l) + R4.At(ToFull(s2, b), i, j, k, l)
  {
    ToFullAddValue(s2, a, b, i, j, k, l);
    ToFullAddParts(s2, a, b, i, j, k, l);
  }

  lemma ToFullAddPointwise(s2: real, a: SkewSym, b: SkewSym)
    ensures forall i: Ix, j: Ix, k: Ix, l: Ix ::
              R4.At(ToFull(s2, Add(a, b)), i, j, k, l) == R4.At(R4.Add(ToFull(s2, a), ToFull(s2, b)), i, j, k, l)
  {
    forall i: Ix, j: Ix, k: Ix, l: Ix
      ensures R4.At(ToFull(s2, Add(a, b)), i, j, k, l) == R4.At(R4.Add(ToFull(s2, a), ToFull(s2, b)), i, j, k, l)
    {
      ToFullAddEntry(s2, a, b, i, j, k, l);
      R4.AddAt(ToFull(s2, a), ToFull(s2, b), i, j, k, l);
    }
  }

  /** The embedding commutes with addition. */
  lemma ToFullAdd(s2: real, a: SkewSym, b: SkewSym)
    ensures ToFull(s2, Add(a, b)) == R4.Add(ToFull(s2, a), ToFull(s2, b))
  {
    ToFullAddPointwise(s2, a, b);
    R4.Ext(ToFull(s2, Add(a, b)), R4.Add(ToFull(s2, a), ToFull(s2, b)));
  }

  lemma ToFullSubValue(s2: real, a: SkewSym, b: SkewSym, i: Ix, j: Ix, k: Ix, l: Ix)
    ensures var kk, q := Axis(i, j), MandelSlot(k, l);
            R4.At(ToFull(s2, Sub(a, b)), i, j, k, l) == Sign(i, j) * ((Comp(a, kk, q) - Comp(b, kk, q)) * InvWeight(s2, q))
  {
    ToFullEntry(s2, Sub(a, b), i, j, k, l);
  }

  lemma ToFullSubParts(s2: real, a: SkewSym, b: SkewSym, i: Ix, j: Ix, k: Ix, l: Ix)
    ensures var kk, q := Axis(i, j), MandelSlot(k, l);
            R4.At(ToFull(s2, a), i, j, k, l) - R4.At(ToFull(s2, b), i, j, k, l) == Sign(i, j) * ((Comp(a, kk, q) - Comp(b, kk, q)) * InvWeight(s2, q))
  {
    ToFullEntry(s2, a, i, j, k, l);
    ToFullEntry(s2, b, i, j, k, l);
  }

  lemma ToFullSubEntry(s2: real, a: SkewSym, b: SkewSym, i: Ix, j: Ix, k: Ix, l: Ix)
    ensures R4.At(ToFull(s2, Sub(a, b)), i, j, k, l) == R4.At(ToFull(s2, a), i, j, k, l) - R4.At(ToFull(s2, b), i, j, k, l)
  {
    ToFullSubValue(s2, a, b, i, j, k, l);
    ToFullSubParts(s2, a, b, i, j, k, l);
  }

  lemma ToFullSubPointwise(s2: real, a: SkewSym, b: SkewSym)
    ensures forall i: Ix, j: Ix, k: Ix, l: Ix ::
              R4.At(ToFull(s2, Sub(a, b)), i, j, k, l) == R4.At(R4.Sub(ToFull(s2, a), ToFull(s2, b)), i, j, k, l)
  {
    forall i: Ix, j: Ix, k: Ix, l: Ix
      ensures R4.At(ToFull(s2, Sub(a, b)), i, j, k, l) == R4.At(R4.Sub(ToFull(s2, a), ToFull(s2, b)), i, j, k, l)
    {
      ToFullSubEntry(s2, a, b, i, j, k, l);
      R4.SubAt(ToFull(s2, a), ToFull(s2, b), i, j, k, l);
    }
  }

  /** The embedding commutes with subtraction. */
  lemma ToFullSub(s2: real, a: SkewSym, b: SkewSym)
    ensures ToFull(s2, Sub(a, b)) == R4.Sub(ToFull(s2, a), ToFull(s2, b))
  {
    ToFullSubPointwise(s2, a, b);
    R4.Ext(ToFull(s2, Sub(a, b)), R4.Sub(ToFull(s2, a), ToFull(s2, b)));
  }

  lemma ToFullScaleValue(s2: real, a: SkewSym, s: real, i: Ix, j: Ix, k: Ix, l: Ix, x: real)
    requires x == Sign(i, j) * ((s * Comp(a, Axis(i, j), MandelSlot(k, l))) * InvWeight(s2, MandelSlot(k, l)))
    ensures R4.At(ToFull(s2, Scale(s, a)), i, j, k, l) == x
  {
    ToFullEntry(s2, Scale(s, a), i, j, k, l);
  }

  lemma ToFullScaleParts(s2: real, a: SkewSym, s: real, i: Ix, j: Ix, k: Ix, l: Ix, x: real)
    requires x == Sign(i, j) * ((s * Comp(a, Axis(i, j), MandelSlot(k, l))) * InvWeight(s2, MandelSlot(k, l)))
    ensures s * R4.At(ToFull(s2, a), i, j, k, l) == x
  {
    ToFullEntry(s2, a, i, j, k, l);
  }

  lemma ToFullScaleEntry(s2: real, a: SkewSym, s: real, i: Ix, j: Ix, k: Ix, l: Ix)
    ensures R4.At(ToFull(s2, Scale(s, a)), i, j, k, l) == s * R4.At(ToFull(s2, a), i, j, k, l)
  {
    var x := Sign(i, j) * ((s * Comp(a, Axis(i, j), MandelSlot(k, l))) * InvWeight(s2, MandelSlot(k, l)));
    ToFullScaleValue(s2, a, s, i, j, k, l, x);
    ToFullScaleParts(s2, a, s, i, j, k, l, x);
  }

  lemma ToFullScalePointwise(s2: real, a: SkewSym, s: real)
    ensures forall i: Ix, j: Ix, k: Ix, l: Ix ::
              R4.At(ToFull(s2, Scale(s, a)), i, j, k, l) == s * R4.At(ToFull(s2, a), i, j, k, l)
  {
    forall i: Ix, j: Ix, k: Ix, l: Ix
      ensures R4.At(ToFull(s2, Scale(s, a)), i, j, k, l) == s * R4.At(ToFull(s2, a), i, j, k, l)
    {
      ToFullScaleEntry(s2, a, s, i, j, k, l);
    }
  }

  /** The embedding commutes with scaling. */
  lemma ToFullScale(s2: real, a: SkewSym, s: real)
    ensures ToFull(s2, Scale(s, a)) == R4.Scale(s, ToFull(s2, a))
  {
    ToFullScalePointwise(s2, a, s);
    R4.ScaleExt(ToFull(s2, Scale(s, a)), ToFull(s2, a), s);
  }

  lemma ToFullNegValue(s2: real, a: SkewSym, i: Ix, j: Ix, k: Ix, l: Ix)
    ensures var kk, q := Axis(i, j), MandelSlot(k, l);
            R4.At(ToFull(s2, Neg(a)), i, j, k, l) == Sign(i, j) * ((-Comp(a, kk, q)) * InvWeight(s2, q))
  {
    ToFullEntry(s2, Neg(a), i, j, k, l);
  }

  lemma ToFullNegParts(s2: real, a: SkewSym, i: Ix, j: Ix, k: Ix, l: Ix)
    ensures var kk, q := Axis(i, j), MandelSlot(k, l);
            -R4.At(ToFull(s2, a), i, j, k, l) == Sign(i, j) * ((-Comp(a, kk, q)) * InvWeight(s2, q))
  {
    ToFullEntry(s2, a, i, j, k, l);
  }

  lemma ToFullNegEntry(s2: real, a: SkewSym, i: Ix, j: Ix, k: Ix, l: Ix)
    ensures R4.At(ToFull(s2, Neg(a)), i, j, k, l) == -R4.At(ToFull(s2, a), i, j, k, l)
  {
    ToFullNegValue(s2, a, i, j, k, l);
    ToFullNegParts(s2, a, i, j, k, l);
  }

  lemma ToFullNegPointwise(s2: real, a: SkewSym)
    ensures forall i: Ix, j: Ix, k: Ix, l: Ix ::
              R4.At(ToFull(s2, Neg(a)), i, j, k, l) == R4.At(R4.Neg(ToFull(s2, a)), i, j, k, l)
  {
    forall i: Ix, j: Ix, k: Ix, l: Ix
      ensures R4.At(ToFull(s2, Neg(a)), i, j, k, l) == R4.At(R4.Neg(ToFull(s2, a)), i, j, k, l)
    {
      ToFullNegEntry(s2, a, i, j, k, l);
      R4.NegAt(ToFull(s2, a), i, j, k, l);
    }
  }

  /** The embedding commutes with negation. */
  lemma ToFullNeg(s2: real, a: SkewSym)
    ensures ToFull(s2, Neg(a)) == R4.Neg(ToFull(s2, a))
  {
    ToFullNegPointwise(s2, a);
    R4.Ext(ToFull(s2, Neg(a)), R4.Neg(ToFull(s2, a)));
  }

  /** Division by a nonzero scalar undoes scaling by it. */
  lemma DivUndoesScale(a: SkewSym, s: real)
    requires s != 0.0
    ensures Div(Scale(s, a), s) == a
  {
    forall k: Ix, q: Slot
      ensures Comp(Div(Scale(s, a), s), k, q) == Comp(a, k, q)
    {
      R4.InverseScale(s, Comp(a, k, q));
    }
    Ext(Div(Scale(s, a), s), a);
  }

  lemma ApplySymValue(s2: real, a: SkewSym, x: Sym.Symmetric, i: Ix, j: Ix, sg: real, v: real)
    requires Root2(s2)
    requires sg == Sign(i, j) && v == Sym.Contract(Row(a, Axis(i, j)), x)
    ensures F.At(ApplySym(s2, a, x), i, j) == sg * v
  {
    var kk := Axis(i, j);
    LeftSlice(s2, a, i, j);
    Sym.ContractAgrees(s2, Row(a, kk), x);
    R4.ApplyEntry(ToFull(s2, a), Sym.ToFull(s2, x), i, j, sg, Sym.ToFull(s2, Row(a, kk)), v);
  }

  lemma ActValue(a: SkewSym, x: Sym.Symmetric, i: Ix, j: Ix, sg: real, v: real)
    requires sg == Sign(i, j) && v == Sym.Contract(Row(a, Axis(i, j)), x)
    ensures F.At(Sk.ToFull(Act(a, x)), i, j) == sg * v
  {
    Sk.EntrySign(Act(a, x), i, j);
    assert Sk.Comp(Act(a, x), Axis(i, j)) == v;
  }

  /** The product with a symmetric tensor is the 3x6 matrix times its Mandel
      vector, embedded: the reduced form is the true double contraction. */
  lemma ApplySymAgrees(s2: real, a: SkewSym, x: Sym.Symmetric)
    requires Root2(s2)
    ensures ApplySym(s2, a, x) == Sk.ToFull(Act(a, x))
  {
    forall i: Ix, j: Ix
      ensures F.At(ApplySym(s2, a, x), i, j) == F.At(Sk.ToFull(Act(a, x)), i, j)
    {
      var sg, v := Sign(i, j), Sym.Contract(Row(a, Axis(i, j)), x);
      ApplySymValue(s2, a, x, i, j, sg, v);
      ActValue(a, x, i, j, sg, v);
    }
    F.Ext(ApplySym(s2, a, x), Sk.ToFull(Act(a, x)));
  }

  /** The product with a skew tensor vanishes: the embedding is symmetric in
      its second pair. */
  lemma ApplySkewZero(s2: real, a: SkewSym, w: Sk.Skew)
    ensures ApplySkew(s2, a, w) == F.Zero()
  {
    ToFullSymmetries(s2, a);
    Sk.ToFullSkew(w);
    R4.ApplySymmetricSkew(ToFull(s2, a), Sk.ToFull(w));
  }

  /** The product with a general rank-2 tensor only sees its symmetric part. */
  lemma ApplyFullSymPart(s2: real, a: SkewSym, x: F.RankTwo)
    requires Root2(s2)
    ensures ApplyFull(s2, a, x) == Sk.ToFull(Act(a, Sym.FromFull(s2, x)))
  {
    var c := ToFull(s2, a);
    var ys := Sym.ToFull(s2, Sym.FromFull(s2, x));
    var yw := Sk.ToFull(Sk.FromFull(x));
    X.Split(s2, x);
    R4.ApplyLinear(c, ys, yw);
    ApplySkewZero(s2, a, Sk.FromFull(x));
    ApplySymAgrees(s2, a, Sym.FromFull(s2, x));
    F.Ext(F.Add(R4.Apply(c, ys), F.Zero()), R4.Apply(c, ys));
  }

  /** The embedding of `douter(w, b)` is the outer product of the embeddings. */
  lemma DouterFull(s2: real, w: Sk.Skew, b: Sym.Symmetric, i: Ix, j: Ix, k: Ix, l: Ix)
    ensures R4.At(ToFull(s2, Douter(w, b)), i, j, k, l) ==
            F.At(Sk.ToFull(w), i, j) * F.At(Sym.ToFull(s2, b), k, l)
  {
    DouterComp(w, b, Axis(i, j), MandelSlot(k, l));
    Sk.ToFullAt(w, i, j);
    Sym.ToFullAt(s2, b, k, l);
    OuterEntry(s2, Douter(w, b), w, b, i, j, k, l, F.At(Sk.ToFull(w), i, j), F.At(Sym.ToFull(s2, b), k, l));
  }

  /** An entry of the embedding of a tensor whose component (Axis(i, j), q)
      is the product of a skew and a symmetric component. */
  lemma OuterEntry(s2: real, d: SkewSym, w: Sk.Skew, b: Sym.Symmetric, i: Ix, j: Ix, k: Ix, l: Ix, u: real, v: real)
    requires Comp(d, Axis(i, j), MandelSlot(k, l)) == Sk.Comp(w, Axis(i, j)) * Sym.Comp(b, MandelSlot(k, l))
    requires u == Sign(i, j) * Sk.Comp(w, Axis(i, j))
    requires v == Sym.Comp(b, MandelSlot(k, l)) * InvWeight(s2, MandelSlot(k, l))
    ensures R4.At(ToFull(s2, d), i, j, k, l) == u * v
  {
    var kk, q := Axis(i, j), MandelSlot(k, l);
    ToFullEntry(s2, d, i, j, k, l);
    OuterRegroup(R4.At(ToFull(s2, d), i, j, k, l), Sign(i, j), Comp(d, kk, q), InvWeight(s2, q),
                 Sk.Comp(w, kk), Sym.Comp(b, q), u, v);
  }

  lemma DouterComp(w: Sk.Skew, b: Sym.Symmetric, k: Ix, q: Slot)
    ensures Comp(Douter(w, b), k, q) == Sk.Comp(w, k) * Sym.Comp(b, q)
  {
  }

  lemma OuterRegroup(r: real, sg: real, m: real, iv: real, x: real, y: real, u: real, v: real)
    requires r == sg * (m * iv) && m == x * y && u == sg * x && v == y * iv
    ensures r == u * v
  {
  }

  /** `douter(w, b)` maps x to (b : x) w. */
  lemma DouterAct(w: Sk.Skew, b: Sym.Symmetric, x: Sym.Symmetric)
    ensures Act(Douter(w, b), x) == Sk.Scale(Sym.Contract(b, x), w)
  {
    forall k: Ix
      ensures Sk.Comp(Act(Douter(w, b), x), k) == Sk.Comp(Sk.Scale(Sym.Contract(b, x), w), k)
    {
      DouterActComp(w, b, x, k, Sym.Contract(b, x));
    }
    Sk.Ext(Act(Douter(w, b), x), Sk.Scale(Sym.Contract(b, x), w));
  }

  /** Component k of the product is the contraction of row k with the argument. */
  lemma ActComp(a: SkewSym, x: Sym.Symmetric, k: Ix)
    ensures Sk.Comp(Act(a, x), k) == Sym.Contract(Row(a, k), x)
  {
  }

  /** Row k of the outer product is the second factor scaled by component k of the first. */
  lemma DouterRow(w: Sk.Skew, b: Sym.Symmetric, k: Ix)
    ensures Row(Douter(w, b), k) == Sym.Scale(Sk.Comp(w, k), b)
  {
    Sym.Ext(Row(Douter(w, b), k), Sym.Scale(Sk.Comp(w, k), b));
  }

  lemma DouterActComp(w: Sk.Skew, b: Sym.Symmetric, x: Sym.Symmetric, k: Ix, e: real)
    requires Sym.Contract(b, x) == e
    ensures Sk.Comp(Act(Douter(w, b), x), k) == Sk.Comp(Sk.Scale(e, w), k)
  {
    ActComp(Douter(w, b), x, k);
    DouterRow(w, b, k);
    Sym.ContractScaleValue(Sk.Comp(w, k), b, x, e);
    assert Sk.Comp(Sk.Scale(e, w), k) == e * Sk.Comp(w, k);
  }
}
