/** Rank-4 tensors with both minor symmetries (c_ijkl = c_jikl = c_ijlk),
    stored as a 6x6 Mandel matrix: entry (p, q) couples Mandel slot p of the
    first index pair with slot q of the second, and each off-diagonal slot
    carries the square-root-of-two scale, so that the 6x6 matrix product and
    matrix-vector product are the true double contractions. */
module SymSymTensor {
  import opened Indexing
  import Storage
  import F = RankTwoFull
  import R4 = RankFourFull
  import Sym = SymmetricTensor
  import Sk = SkewTensor
  import X = RankTwoMixed

  datatype SymSym = SymSym(m: Storage.Mat66)

  /** Stored component (p, q): the value of `operator()(p, q)`. */
  function Comp(a: SymSym, p: Slot, q: Slot): real {
    a.m[p][q]
  }

  /** The tensor whose component (p, q) is f(p, q). */
  function Build(f: (Slot, Slot) -> real): (r: SymSym)
    ensures forall p: Slot, q: Slot :: Comp(r, p, q) == f(p, q)
  {
    SymSym(seq(6, (p: int) requires 0 <= p < 6 =>
      seq(6, (q: int) requires 0 <= q < 6 => f(p, q))))
  }

  /** Tensors with the same components are equal. */
  lemma Ext(a: SymSym, b: SymSym)
    requires forall p: Slot, q: Slot :: Comp(a, p, q) == Comp(b, p, q)
    ensures a == b
  {
    forall p: Slot
      ensures a.m[p] == b.m[p]
    {
      assert forall q: int :: 0 <= q < 6 ==> a.m[p][q] == Comp(a, p, q);
    }
    assert forall p: int :: 0 <= p < 6 ==> a.m[p] == b.m[p];
  }

  /** The constructor from a 6x6 nested array. */
  function FromRows(rows: seq<seq<real>>): (r: SymSym)
    requires |rows| == 6 && forall p :: 0 <= p < 6 ==> |rows[p]| == 6
    ensures forall p: Slot, q: Slot :: Comp(r, p, q) == rows[p][q]
  {
    Build((p: Slot, q: Slot) => rows[p][q])
  }

  /** The default-constructed (zero) tensor. */
  function Zero(): SymSym {
    Build((p: Slot, q: Slot) => 0.0)
  }

  /** `opposite()` and unary minus. */
  function Neg(a: SymSym): SymSym {
    Build((p: Slot, q: Slot) => -Comp(a, p, q))
  }

  function Add(a: SymSym, b: SymSym): SymSym {
    Build((p: Slot, q: Slot) => Comp(a, p, q) + Comp(b, p, q))
  }

  function Sub(a: SymSym, b: SymSym): SymSym {
    Build((p: Slot, q: Slot) => Comp(a, p, q) - Comp(b, p, q))
  }

  function Scale(s: real, a: SymSym): SymSym {
    Build((p: Slot, q: Slot) => s * Comp(a, p, q))
  }

  function Div(a: SymSym, s: real): SymSym
    requires s != 0.0
  {
    Scale(1.0 / s, a)
  }

  /** Row p, read as the Mandel vector of a symmetric tensor. */
  function Row(a: SymSym, p: Slot): Sym.Symmetric {
    Sym.Symmetric(a.m[p])
  }

  /** Column q, read as the Mandel vector of a symmetric tensor. */
  function Col(a: SymSym, q: Slot): Sym.Symmetric {
    Sym.Build((p: Slot) => Comp(a, p, q))
  }

  /** `to_full()`: entry (i, j, k, l) is component (slot of ij, slot of kl)
      with both Mandel scales removed. */
  function ToFull(s2: real, a: SymSym): R4.RankFour {
    R4.Build((i: Ix, j: Ix, k: Ix, l: Ix) =>
      InvWeight(s2, MandelSlot(i, j)) * (Comp(a, MandelSlot(i, j), MandelSlot(k, l)) * InvWeight(s2, MandelSlot(k, l))))
  }

  /** `RankFour::to_sym()`: the Mandel components of the part of c that is
      symmetric in each index pair (the mean of its four index orders). */
  function FromFull(s2: real, c: R4.RankFour): SymSym {
    Build((p: Slot, q: Slot) =>
      Weight(s2, p) * Weight(s2, q) / 4.0 *
      (R4.At(c, SlotRow(p), SlotCol(p), SlotRow(q), SlotCol(q)) +
       R4.At(c, SlotCol(p), SlotRow(p), SlotRow(q), SlotCol(q)) +
       R4.At(c, SlotRow(p), SlotCol(p), SlotCol(q), SlotRow(q)) +
       R4.At(c, SlotCol(p), SlotRow(p), SlotCol(q), SlotRow(q))))
  }

  /** `dot(const Symmetric &)`: the 6x6 matrix times the Mandel vector. */
  function Apply(a: SymSym, x: Sym.Symmetric): Sym.Symmetric {
    Sym.Build((p: Slot) => Sym.Contract(Row(a, p), x))
  }

  /** `dot(const SymSym &)`: the 6x6 matrix product. */
  function Dot(a: SymSym, b: SymSym): SymSym {
    Build((p: Slot, q: Slot) => Sym.Contract(Row(a, p), Col(b, q)))
  }

  /** `dot(const Skew &)`: the full product with the embedded skew tensor. */
  function ApplySkew(s2: real, a: SymSym, w: Sk.Skew): F.RankTwo {
    R4.Apply(ToFull(s2, a), Sk.ToFull(w))
  }

  /** `dot(const RankTwo &)`: the full product with a general rank-2 tensor. */
  function ApplyFull(s2: real, a: SymSym, x: F.RankTwo): F.RankTwo {
    R4.Apply(ToFull(s2, a), x)
  }

  /** `douter(Symmetric, Symmetric)`: the outer product a_ij b_kl, whose 6x6
      matrix is the outer product of the Mandel vectors. */
  function Douter(a: Sym.Symmetric, b: Sym.Symmetric): SymSym {
    Build((p: Slot, q: Slot) => Sym.Comp(a, p) * Sym.Comp(b, q))
  }

  // Scalar identities used by the entry-wise proofs below.

  /** Undoing both scales of the mean of four equal entries. */
  lemma RoundTripScalar(w1: real, v1: real, w2: real, v2: real, m: real, e1: real, e2: real, e3: real, e4: real)
    requires w1 * v1 == 1.0 && w2 * v2 == 1.0
    requires e1 == v1 * (m * v2) && e2 == e1 && e3 == e1 && e4 == e1
    ensures w1 * w2 / 4.0 * (e1 + e2 + e3 + e4) == m
  {
    calc {
      w1 * w2 / 4.0 * (e1 + e2 + e3 + e4);
      w1 * w2 * e1;
      w1 * w2 * (v1 * (m * v2));
      (w1 * v1) * (w2 * v2) * m;
    }
  }

  /** Restoring both scales of the mean of four equal entries. */
  lemma EmbedScalar(w1: real, v1: real, w2: real, v2: real, m: real, x: real)
    requires w1 * v1 == 1.0 && w2 * v2 == 1.0
    requires m == w1 * w2 / 4.0 * (x + x + x + x)
    ensures v1 * (m * v2) == x
  {
    calc {
      v1 * (m * v2);
      v1 * (w1 * w2 * x * v2);
      (w1 * v1) * (w2 * v2) * x;
    }
  }

  /** Entry (i, j, k, l) of the embedding: the component of the two slots
      with both Mandel scales removed. */
  lemma ToFullEntry(s2: real, a: SymSym, i: Ix, j: Ix, k: Ix, l: Ix)
    ensures R4.At(ToFull(s2, a), i, j, k, l) ==
            InvWeight(s2, MandelSlot(i, j)) * (Comp(a, MandelSlot(i, j), MandelSlot(k, l)) * InvWeight(s2, MandelSlot(k, l)))
  {
  }

  /** Component (p, q) of `to_sym()` read off the four entries of its slots. */
  lemma FromFullComp(s2: real, c: R4.RankFour, p: Slot, q: Slot)
    ensures Comp(FromFull(s2, c), p, q) ==
            Weight(s2, p) * Weight(s2, q) / 4.0 *
            (R4.At(c, SlotRow(p), SlotCol(p), SlotRow(q), SlotCol(q)) +
             R4.At(c, SlotCol(p), SlotRow(p), SlotRow(q), SlotCol(q)) +
             R4.At(c, SlotRow(p), SlotCol(p), SlotCol(q), SlotRow(q)) +
             R4.At(c, SlotCol(p), SlotRow(p), SlotCol(q), SlotRow(q)))
  {
  }

  /** The embedding is symmetric in each index pair. */
  lemma ToFullMinorSymmetric(s2: real, a: SymSym)
    ensures R4.SymmetricLeft(ToFull(s2, a)) && R4.SymmetricRight(ToFull(s2, a))
  {
    var c := ToFull(s2, a);
    forall i: Ix, j: Ix, k: Ix, l: Ix
      ensures R4.At(c, j, i, k, l) == R4.At(c, i, j, k, l)
      ensures R4.At(c, i, j, l, k) == R4.At(c, i, j, k, l)
    {
      ToFullEntry(s2, a, i, j, k, l);
      ToFullEntry(s2, a, j, i, k, l);
      ToFullEntry(s2, a, i, j, l, k);
    }
  }

  /** The slice with the first pair fixed is the scaled embedding of a row. */
  lemma LeftSlice(s2: real, a: SymSym, i: Ix, j: Ix)
    ensures R4.Left(ToFull(s2, a), i, j) ==
            F.Scale(InvWeight(s2, MandelSlot(i, j)), Sym.ToFull(s2, Row(a, MandelSlot(i, j))))
  {
    var t := F.Scale(InvWeight(s2, MandelSlot(i, j)), Sym.ToFull(s2, Row(a, MandelSlot(i, j))));
    forall k: Ix, l: Ix
      ensures F.At(R4.Left(ToFull(s2, a), i, j), k, l) == F.At(t, k, l)
    {
      LeftSliceEntry(s2, a, i, j, k, l, InvWeight(s2, MandelSlot(i, j)), Comp(a, MandelSlot(i, j), MandelSlot(k, l)), InvWeight(s2, MandelSlot(k, l)));
    }
    F.Ext(R4.Left(ToFull(s2, a), i, j), t);
  }

  lemma LeftSliceEntry(s2: real, a: SymSym, i: Ix, j: Ix, k: Ix, l: Ix, u: real, m: real, v: real)
    requires u == InvWeight(s2, MandelSlot(i, j)) && m == Comp(a, MandelSlot(i, j), MandelSlot(k, l))
    requires v == InvWeight(s2, MandelSlot(k, l))
    ensures F.At(R4.Left(ToFull(s2, a), i, j), k, l) ==
            F.At(F.Scale(InvWeight(s2, MandelSlot(i, j)), Sym.ToFull(s2, Row(a, MandelSlot(i, j)))), k, l)
  {
    LeftSliceOfFull(s2, a, i, j, k, l, u, m, v);
    LeftSliceOfRow(s2, a, i, j, k, l, u, m, v);
  }

  lemma LeftSliceOfFull(s2: real, a: SymSym, i: Ix, j: Ix, k: Ix, l: Ix, u: real, m: real, v: real)
    requires u == InvWeight(s2, MandelSlot(i, j)) && m == Comp(a, MandelSlot(i, j), MandelSlot(k, l))
    requires v == InvWeight(s2, MandelSlot(k, l))
    ensures F.At(R4.Left(ToFull(s2, a), i, j), k, l) == u * (m * v)
  {
    R4.SliceEntries(ToFull(s2, a), i, j, k, l);
    ToFullEntry(s2, a, i, j, k, l);
  }

  lemma LeftSliceOfRow(s2: real, a: SymSym, i: Ix, j: Ix, k: Ix, l: Ix, u: real, m: real, v: real)
    requires u == InvWeight(s2, MandelSlot(i, j)) && m == Comp(a, MandelSlot(i, j), MandelSlot(k, l))
    requires v == InvWeight(s2, MandelSlot(k, l))
    ensures F.At(F.Scale(InvWeight(s2, MandelSlot(i, j)), Sym.ToFull(s2, Row(a, MandelSlot(i, j)))), k, l) == u * (m * v)
  {
    var p := MandelSlot(i, j);
    assert Sym.Comp(Row(a, p), MandelSlot(k, l)) == m;
    assert F.At(Sym.ToFull(s2, Row(a, p)), k, l) == m * v;
  }

  /** The slice with the second pair fixed is the scaled embedding of a column. */
  lemma RightSlice(s2: real, a: SymSym, k: Ix, l: Ix)
    ensures R4.Right(ToFull(s2, a), k, l) ==
            F.Scale(InvWeight(s2, MandelSlot(k, l)), Sym.ToFull(s2, Col(a, MandelSlot(k, l))))
  {
    var t := F.Scale(InvWeight(s2, MandelSlot(k, l)), Sym.ToFull(s2, Col(a, MandelSlot(k, l))));
    forall i: Ix, j: Ix
      ensures F.At(R4.Right(ToFull(s2, a), k, l), i, j) == F.At(t, i, j)
    {
      RightSliceEntry(s2, a, i, j, k, l, InvWeight(s2, MandelSlot(i, j)), Comp(a, MandelSlot(i, j), MandelSlot(k, l)), InvWeight(s2, MandelSlot(k, l)));
    }
    F.Ext(R4.Right(ToFull(s2, a), k, l), t);
  }

  lemma RightSliceEntry(s2: real, a: SymSym, i: Ix, j: Ix, k: Ix, l: Ix, u: real, m: real, v: real)
    requires u == InvWeight(s2, MandelSlot(i, j)) && m == Comp(a, MandelSlot(i, j), MandelSlot(k, l))
    requires v == InvWeight(s2, MandelSlot(k, l))
    ensures F.At(R4.Right(ToFull(s2, a), k, l), i, j) ==
            F.At(F.Scale(InvWeight(s2, MandelSlot(k, l)), Sym.ToFull(s2, Col(a, MandelSlot(k, l)))), i, j)
  {
    RightSliceOfFull(s2, a, i, j, k, l, u, m, v);
    RightSliceOfCol(s2, a, i, j, k, l, u, m, v);
  }

  lemma RightSliceOfFull(s2: real, a: SymSym, i: Ix, j: Ix, k: Ix, l: Ix, u: real, m: real, v: real)
    requires u == InvWeight(s2, MandelSlot(i, j)) && m == Comp(a, MandelSlot(i, j), MandelSlot(k, l))
    requires v == InvWeight(s2, MandelSlot(k, l))
    ensures F.At(R4.Right(ToFull(s2, a), k, l), i, j) == u * (m * v)
  {
    R4.SliceEntries(ToFull(s2, a), i, j, k, l);
    ToFullEntry(s2, a, i, j, k, l);
  }

  lemma RightSliceOfCol(s2: real, a: SymSym, i: Ix, j: Ix, k: Ix, l: Ix, u: real, m: real, v: real)
    requires u == InvWeight(s2, MandelSlot(i, j)) && m == Comp(a, MandelSlot(i, j), MandelSlot(k, l))
    requires v == InvWeight(s2, MandelSlot(k, l))
    ensures F.At(F.Scale(InvWeight(s2, MandelSlot(k, l)), Sym.ToFull(s2, Col(a, MandelSlot(k, l)))), i, j) == u * (m * v)
  {
    var q := MandelSlot(k, l);
    assert Sym.Comp(Col(a, q), MandelSlot(i, j)) == m;
    assert F.At(Sym.ToFull(s2, Col(a, q)), i, j) == m * u;
    assert v * (m * u) == u * (m * v);
  }

  /** One entry of the embedding, given the two slots its indices select. */
  lemma SlotEntry(s2: real, a: SymSym, i: Ix, j: Ix, k: Ix, l: Ix, p: Slot, q: Slot, x: real)
    requires MandelSlot(i, j) == p && MandelSlot(k, l) == q
    requires x == InvWeight(s2, p) * (Comp(a, p, q) * InvWeight(s2, q))
    ensures R4.At(ToFull(s2, a), i, j, k, l) == x
  {
    ToFullEntry(s2, a, i, j, k, l);
  }

  /** The four entries of the embedding stored in slots (p, q) agree. */
  lemma SlotEntries(s2: real, a: SymSym, p: Slot, q: Slot, x: real)
    requires x == InvWeight(s2, p) * (Comp(a, p, q) * InvWeight(s2, q))
    ensures R4.At(ToFull(s2, a), SlotRow(p), SlotCol(p), SlotRow(q), SlotCol(q)) == x &&
            R4.At(ToFull(s2, a), SlotCol(p), SlotRow(p), SlotRow(q), SlotCol(q)) == x &&
            R4.At(ToFull(s2, a), SlotRow(p), SlotCol(p), SlotCol(q), SlotRow(q)) == x &&
            R4.At(ToFull(s2, a), SlotCol(p), SlotRow(p), SlotCol(q), SlotRow(q)) == x
  {
    SlotOfPair(p);
    SlotOfPair(q);
    assert MandelSlot(SlotCol(p), SlotRow(p)) == p && MandelSlot(SlotCol(q), SlotRow(q)) == q;
    SlotEntry(s2, a, SlotRow(p), SlotCol(p), SlotRow(q), SlotCol(q), p, q, x);
    SlotEntry(s2, a, SlotCol(p), SlotRow(p), SlotRow(q), SlotCol(q), p, q, x);
    SlotEntry(s2, a, SlotRow(p), SlotCol(p), SlotCol(q), SlotRow(q), p, q, x);
    SlotEntry(s2, a, SlotCol(p), SlotRow(p), SlotCol(q), SlotRow(q), p, q, x);
  }

  /** `to_sym()` of a tensor whose four entries in slots (p, q) all hold m
      with both scales removed gives back m. */
  lemma FromFullOfEqualEntries(s2: real, c: R4.RankFour, p: Slot, q: Slot, m: real, x: real)
    requires Root2(s2)
    requires x == InvWeight(s2, p) * (m * InvWeight(s2, q))
    requires R4.At(c, SlotRow(p), SlotCol(p), SlotRow(q), SlotCol(q)) == x &&
             R4.At(c, SlotCol(p), SlotRow(p), SlotRow(q), SlotCol(q)) == x &&
             R4.At(c, SlotRow(p), SlotCol(p), SlotCol(q), SlotRow(q)) == x &&
             R4.At(c, SlotCol(p), SlotRow(p), SlotCol(q), SlotRow(q)) == x
    ensures Comp(FromFull(s2, c), p, q) == m
  {
    FromFullComp(s2, c, p, q);
    WeightInverse(s2, p);
    WeightInverse(s2, q);
    RoundTripScalar(Weight(s2, p), InvWeight(s2, p), Weight(s2, q), InvWeight(s2, q), m,
                    R4.At(c, SlotRow(p), SlotCol(p), SlotRow(q), SlotCol(q)),
                    R4.At(c, SlotCol(p), SlotRow(p), SlotRow(q), SlotCol(q)),
                    R4.At(c, SlotRow(p), SlotCol(p), SlotCol(q), SlotRow(q)),
                    R4.At(c, SlotCol(p), SlotRow(p), SlotCol(q), SlotRow(q)));
  }

  /** One component of the round trip through the embedding. */
  lemma FromFullToFullComp(s2: real, a: SymSym, p: Slot, q: Slot)
    requires Root2(s2)
    ensures Comp(FromFull(s2, ToFull(s2, a)), p, q) == Comp(a, p, q)
  {
    var x := InvWeight(s2, p) * (Comp(a, p, q) * InvWeight(s2, q));
    SlotEntries(s2, a, p, q, x);
    FromFullOfEqualEntries(s2, ToFull(s2, a), p, q, Comp(a, p, q), x);
  }

  /** `to_sym()` recovers the components from the embedding. */
  lemma FromFullToFull(s2: real, a: SymSym)
    requires Root2(s2)
    ensures FromFull(s2, ToFull(s2, a)) == a
  {
    forall p: Slot, q: Slot
      ensures Comp(FromFull(s2, ToFull(s2, a)), p, q) == Comp(a, p, q)
    {
      FromFullToFullComp(s2, a, p, q);
    }
    Ext(FromFull(s2, ToFull(s2, a)), a);
  }

  /** The `to_sym()` component of the slots of (i, j) and (k, l) of a tensor
      symmetric in each pair is entry (i, j, k, l) with both scales applied. */
  lemma FromFullEntry(s2: real, c: R4.RankFour, i: Ix, j: Ix, k: Ix, l: Ix)
    requires R4.SymmetricLeft(c) && R4.SymmetricRight(c)
    ensures var p, q, x := MandelSlot(i, j), MandelSlot(k, l), R4.At(c, i, j, k, l);
            Comp(FromFull(s2, c), p, q) == Weight(s2, p) * Weight(s2, q) / 4.0 * (x + x + x + x)
  {
    FromFullComp(s2, c, MandelSlot(i, j), MandelSlot(k, l));
    PairOfSlot(i, j);
    PairOfSlot(k, l);
    assert R4.At(c, j, i, k, l) == R4.At(c, i, j, k, l);
    assert R4.At(c, i, j, l, k) == R4.At(c, i, j, k, l);
    assert R4.At(c, j, i, l, k) == R4.At(c, j, i, k, l);
  }

  /** One entry of the round trip of a tensor symmetric in each pair. */
  lemma ToFullFromFullEntry(s2: real, c: R4.RankFour, i: Ix, j: Ix, k: Ix, l: Ix)
    requires Root2(s2)
    requires R4.SymmetricLeft(c) && R4.SymmetricRight(c)
    ensures R4.At(ToFull(s2, FromFull(s2, c)), i, j, k, l) == R4.At(c, i, j, k, l)
  {
    var p, q := MandelSlot(i, j), MandelSlot(k, l);
    FromFullEntry(s2, c, i, j, k, l);
    EmbeddedEntry(s2, FromFull(s2, c), i, j, k, l, Comp(FromFull(s2, c), p, q), R4.At(c, i, j, k, l));
  }

  /** Entry (i, j, k, l) of the embedding of t, whose stored component is
      m = w w' / 4 (x + x + x + x). */
  lemma EmbeddedEntry(s2: real, t: SymSym, i: Ix, j: Ix, k: Ix, l: Ix, m: real, x: real)
    requires Root2(s2)
    requires m == Comp(t, MandelSlot(i, j), MandelSlot(k, l))
    requires m == Weight(s2, MandelSlot(i, j)) * Weight(s2, MandelSlot(k, l)) / 4.0 * (x + x + x + x)
    ensures R4.At(ToFull(s2, t), i, j, k, l) == x
  {
    var p, q := MandelSlot(i, j), MandelSlot(k, l);
    ToFullEntry(s2, t, i, j, k, l);
    WeightInverse(s2, p);
    WeightInverse(s2, q);
    EmbedScalar(Weight(s2, p), InvWeight(s2, p), Weight(s2, q), InvWeight(s2, q), m, x);
  }

  /** A rank-4 tensor symmetric in each index pair is the embedding of its
      `to_sym()` projection: the two classes are the same tensors. */
  lemma ToFullFromFull(s2: real, c: R4.RankFour)
    requires Root2(s2)
    requires R4.SymmetricLeft(c) && R4.SymmetricRight(c)
    ensures ToFull(s2, FromFull(s2, c)) == c
  {
    forall i: Ix, j: Ix, k: Ix, l: Ix
      ensures R4.At(ToFull(s2, FromFull(s2, c)), i, j, k, l) == R4.At(c, i, j, k, l)
    {
      ToFullFromFullEntry(s2, c, i, j, k, l);
    }
    R4.Ext(ToFull(s2, FromFull(s2, c)), c);
  }

  // The embedding's linearity follows one layout: for one entry, a `*Value`
  // lemma writes the embedded sum, difference, multiple or opposite in terms
  // of the components, a `*Parts` lemma does the same for the full operation
  // on the embeddings, a `*Entry` lemma equates the two, and `Ext` closes the
  // tensor equality. The SymSkew and SkewSym modules follow the same layout
  // for their own encodings, since one entry at a time keeps each proof small.
  lemma ToFullAddValue(s2: real, a: SymSym, b: SymSym, i: Ix, j: Ix, k: Ix, l: Ix)
    ensures var p, q := MandelSlot(i, j), MandelSlot(k, l);
            R4.At(ToFull(s2, Add(a, b)), i, j, k, l) == InvWeight(s2, p) * ((Comp(a, p, q) + Comp(b, p, q)) * InvWeight(s2, q))
  {
    ToFullEntry(s2, Add(a, b), i, j, k, l);
  }

  lemma ToFullAddParts(s2: real, a: SymSym, b: SymSym, i: Ix, j: Ix, k: Ix, l: Ix)
    ensures var p, q := MandelSlot(i, j), MandelSlot(k, l);
            R4.At(ToFull(s2, a), i, j, k, l) + R4.At(ToFull(s2, b), i, j, k, l) == InvWeight(s2, p) * ((Comp(a, p, q) + Comp(b, p, q)) * InvWeight(s2, q))
  {
    var p, q := MandelSlot(i, j), MandelSlot(k, l);
    ToFullEntry(s2, a, i, j, k, l);
    ToFullEntry(s2, b, i, j, k, l);
  }

  lemma ToFullAddEntry(s2: real, a: SymSym, b: SymSym, i: Ix, j: Ix, k: Ix, l: Ix)
    ensures R4.At(ToFull(s2, Add(a, b)), i, j, k, l) == R4.At(ToFull(s2, a), i, j, k, l) + R4.At(ToFull(s2, b), i, j, k, l)
  {
    ToFullAddValue(s2, a, b, i, j, k, l);
    ToFullAddParts(s2, a, b, i, j, k, l);
  }

  /** The embedding commutes with addition. */
  lemma ToFullAdd(s2: real, a: SymSym, b: SymSym)
    ensures ToFull(s2, Add(a, b)) == R4.Add(ToFull(s2, a), ToFull(s2, b))
  {
    forall i: Ix, j: Ix, k: Ix, l: Ix
      ensures R4.At(ToFull(s2, Add(a, b)), i, j, k, l) == R4.At(R4.Add(ToFull(s2, a), ToFull(s2, b)), i, j, k, l)
    {
      ToFullAddEntry(s2, a, b, i, j, k, l);
      R4.AddAt(ToFull(s2, a), ToFull(s2, b), i, j, k, l);
    }
    R4.Ext(ToFull(s2, Add(a, b)), R4.Add(ToFull(s2, a), ToFull(s2, b)));
  }

  lemma ToFullSubValue(s2: real, a: SymSym, b: SymSym, i: Ix, j: Ix, k: Ix, l: Ix)
    ensures var p, q := MandelSlot(i, j), MandelSlot(k, l);
            R4.At(ToFull(s2, Sub(a, b)), i, j, k, l) == InvWeight(s2, p) * ((Comp(a, p, q) - Comp(b, p, q)) * InvWeight(s2, q))
  {
    ToFullEntry(s2, Sub(a, b), i, j, k, l);
  }

  lemma ToFullSubParts(s2: real, a: SymSym, b: SymSym, i: Ix, j: Ix, k: Ix, l: Ix)
    ensures var p, q := MandelSlot(i, j), MandelSlot(k, l);
            R4.At(ToFull(s2, a), i, j, k, l) - R4.At(ToFull(s2, b), i, j, k, l) == InvWeight(s2, p) * ((Comp(a, p, q) - Comp(b, p, q)) * InvWeight(s2, q))
  {
    var p, q := MandelSlot(i, j), MandelSlot(k, l);
    ToFullEntry(s2, a, i, j, k, l);
    ToFullEntry(s2, b, i, j, k, l);
  }

  lemma ToFullSubEntry(s2: real, a: SymSym, b: SymSym, i: Ix, j: Ix, k: Ix, l: Ix)
    ensures R4.At(ToFull(s2, Sub(a, b)), i, j, k, l) == R4.At(ToFull(s2, a), i, j, k, l) - R4.At(ToFull(s2, b), i, j, k, l)
  {
    ToFullSubValue(s2, a, b, i, j, k, l);
    ToFullSubParts(s2, a, b, i, j, k, l);
  }

  /** The embedding commutes with subtraction. */
  lemma ToFullSub(s2: real, a: SymSym, b: SymSym)
    ensures ToFull(s2, Sub(a, b)) == R4.Sub(ToFull(s2, a), ToFull(s2, b))
  {
    forall i: Ix, j: Ix, k: Ix, l: Ix
      ensures R4.At(ToFull(s2, Sub(a, b)), i, j, k, l) == R4.At(R4.Sub(ToFull(s2, a), ToFull(s2, b)), i, j, k, l)
    {
      ToFullSubEntry(s2, a, b, i, j, k, l);
      R4.SubAt(ToFull(s2, a), ToFull(s2, b), i, j, k, l);
    }
    R4.Ext(ToFull(s2, Sub(a, b)), R4.Sub(ToFull(s2, a), ToFull(s2, b)));
  }

  lemma ToFullScaleValue(s2: real, a: SymSym, s: real, i: Ix, j: Ix, k: Ix, l: Ix, x: real)
    requires x == InvWeight(s2, MandelSlot(i, j)) * ((s * Comp(a, MandelSlot(i, j), MandelSlot(k, l))) * InvWeight(s2, MandelSlot(k, l)))
    ensures R4.At(ToFull(s2, Scale(s, a)), i, j, k, l) == x
  {
    ToFullEntry(s2, Scale(s, a), i, j, k, l);
  }

  lemma ToFullScaleParts(s2: real, a: SymSym, s: real, i: Ix, j: Ix, k: Ix, l: Ix, x: real)
    requires x == InvWeight(s2, MandelSlot(i, j)) * ((s * Comp(a, MandelSlot(i, j), MandelSlot(k, l))) * InvWeight(s2, MandelSlot(k, l)))
    ensures s * R4.At(ToFull(s2, a), i, j, k, l) == x
  {
    ToFullEntry(s2, a, i, j, k, l);
  }

  lemma ToFullScaleEntry(s2: real, a: SymSym, s: real, i: Ix, j: Ix, k: Ix, l: Ix)
    ensures R4.At(ToFull(s2, Scale(s, a)), i, j, k, l) == s * R4.At(ToFull(s2, a), i, j, k, l)
  {
    var x := InvWeight(s2, MandelSlot(i, j)) * ((s * Comp(a, MandelSlot(i, j), MandelSlot(k, l))) * InvWeight(s2, MandelSlot(k, l)));
    ToFullScaleValue(s2, a, s, i, j, k, l, x);
    ToFullScaleParts(s2, a, s, i, j, k, l, x);
  }

  lemma ToFullScalePointwise(s2: real, a: SymSym, s: real)
    ensures forall i: Ix, j: Ix, k: Ix, l: Ix ::
              R4.At(ToFull(s2, Scale(s, a)), i, j, k, l) == s * R4.At(ToFull(s2, a), i, j, k, l)
  {
    forall i: Ix, j: Ix, k: Ix, l: Ix
      ensures R4.At(ToFull(s2, Scale(s, a)), i, j, k, l) == s * R4.At(ToFull(s2, a), i, j, k, l)
    {
      ToFullScaleEntry(s2, a, s, i, j, k, l);
    }
  }

  /** The embedding commutes with scaling. */
  lemma ToFullScale(s2: real, a: SymSym, s: real)
    ensures ToFull(s2, Scale(s, a)) == R4.Scale(s, ToFull(s2, a))
  {
    ToFullScalePointwise(s2, a, s);
    R4.ScaleExt(ToFull(s2, Scale(s, a)), ToFull(s2, a), s);
  }

  lemma ToFullNegValue(s2: real, a: SymSym, i: Ix, j: Ix, k: Ix, l: Ix)
    ensures var p, q := MandelSlot(i, j), MandelSlot(k, l);
            R4.At(ToFull(s2, Neg(a)), i, j, k, l) == InvWeight(s2, p) * ((-Comp(a, p, q)) * InvWeight(s2, q))
  {
    ToFullEntry(s2, Neg(a), i, j, k, l);
  }

  lemma ToFullNegParts(s2: real, a: SymSym, i: Ix, j: Ix, k: Ix, l: Ix)
    ensures var p, q := MandelSlot(i, j), MandelSlot(k, l);
            -R4.At(ToFull(s2, a), i, j, k, l) == InvWeight(s2, p) * ((-Comp(a, p, q)) * InvWeight(s2, q))
  {
    var p, q := MandelSlot(i, j), MandelSlot(k, l);
    ToFullEntry(s2, a, i, j, k, l);
  }

  lemma ToFullNegEntry(s2: real, a: SymSym, i: Ix, j: Ix, k: Ix, l: Ix)
    ensures R4.At(ToFull(s2, Neg(a)), i, j, k, l) == -R4.At(ToFull(s2, a), i, j, k, l)
  {
    ToFullNegValue(s2, a, i, j, k, l);
    ToFullNegParts(s2, a, i, j, k, l);
  }

  /** The embedding commutes with negation. */
  lemma ToFullNeg(s2: real, a: SymSym)
    ensures ToFull(s2, Neg(a)) == R4.Neg(ToFull(s2, a))
  {
    forall i: Ix, j: Ix, k: Ix, l: Ix
      ensures R4.At(ToFull(s2, Neg(a)), i, j, k, l) == R4.At(R4.Neg(ToFull(s2, a)), i, j, k, l)
    {
      ToFullNegEntry(s2, a, i, j, k, l);
      R4.NegAt(ToFull(s2, a), i, j, k, l);
    }
    R4.Ext(ToFull(s2, Neg(a)), R4.Neg(ToFull(s2, a)));
  }

  /** Division by a nonzero scalar undoes scaling by it. */
  lemma DivUndoesScale(a: SymSym, s: real)
    requires s != 0.0
    ensures Div(Scale(s, a), s) == a
  {
    forall p: Slot, q: Slot
      ensures Comp(Div(Scale(s, a), s), p, q) == Comp(a, p, q)
    {
      R4.InverseScale(s, Comp(a, p, q));
    }
    Ext(Div(Scale(s, a), s), a);
  }

  lemma FullApplyValue(s2: real, a: SymSym, x: Sym.Symmetric, i: Ix, j: Ix, c: real, v: real)
    requires Root2(s2)
    requires c == InvWeight(s2, MandelSlot(i, j)) && v == Sym.Contract(Row(a, MandelSlot(i, j)), x)
    ensures F.At(R4.Apply(ToFull(s2, a), Sym.ToFull(s2, x)), i, j) == c * v
  {
    var p := MandelSlot(i, j);
    LeftSlice(s2, a, i, j);
    Sym.ContractAgrees(s2, Row(a, p), x);
    R4.ApplyEntry(ToFull(s2, a), Sym.ToFull(s2, x), i, j, c, Sym.ToFull(s2, Row(a, p)), v);
  }

  lemma ApplyEntryValue(s2: real, a: SymSym, x: Sym.Symmetric, i: Ix, j: Ix, c: real, v: real)
    requires c == InvWeight(s2, MandelSlot(i, j)) && v == Sym.Contract(Row(a, MandelSlot(i, j)), x)
    ensures F.At(Sym.ToFull(s2, Apply(a, x)), i, j) == v * c
  {
    var y, p := Apply(a, x), MandelSlot(i, j);
    assert F.At(Sym.ToFull(s2, y), i, j) == Sym.Entry(s2, y, i, j);
    assert Sym.Comp(y, p) == Sym.Contract(Row(a, p), x);
  }

  /** Entry (i, j) of both sides of the agreement below: the weighted
      contraction of row (i, j) with the argument, whose values are c and v. */
  lemma AgreesEntry(s2: real, a: SymSym, x: Sym.Symmetric, i: Ix, j: Ix, c: real, v: real)
    requires Root2(s2)
    requires c == InvWeight(s2, MandelSlot(i, j)) && v == Sym.Contract(Row(a, MandelSlot(i, j)), x)
    ensures F.At(Sym.ToFull(s2, Apply(a, x)), i, j) == F.At(R4.Apply(ToFull(s2, a), Sym.ToFull(s2, x)), i, j)
  {
    FullApplyValue(s2, a, x, i, j, c, v);
    ApplyEntryValue(s2, a, x, i, j, c, v);
  }

  /** The 6x6 matrix-vector product is the full double contraction of the embeddings. */
  lemma ApplyAgrees(s2: real, a: SymSym, x: Sym.Symmetric)
    requires Root2(s2)
    ensures Sym.ToFull(s2, Apply(a, x)) == R4.Apply(ToFull(s2, a), Sym.ToFull(s2, x))
  {
    forall i: Ix, j: Ix
      ensures F.At(Sym.ToFull(s2, Apply(a, x)), i, j) == F.At(R4.Apply(ToFull(s2, a), Sym.ToFull(s2, x)), i, j)
    {
      AgreesEntry(s2, a, x, i, j, InvWeight(s2, MandelSlot(i, j)), Sym.Contract(Row(a, MandelSlot(i, j)), x));
    }
    F.Ext(Sym.ToFull(s2, Apply(a, x)), R4.Apply(ToFull(s2, a), Sym.ToFull(s2, x)));
  }

  /** Entry (i, j, k, l) of the full product of the embeddings: a row of the
      first 6x6 matrix contracted with a column of the second, weighted by
      the two Mandel factors c and d. */
  lemma FullDotEntry(s2: real, a: SymSym, b: SymSym, i: Ix, j: Ix, k: Ix, l: Ix, c: real, d: real, v: real)
    requires Root2(s2)
    requires c == InvWeight(s2, MandelSlot(i, j)) && d == InvWeight(s2, MandelSlot(k, l))
    requires v == Sym.Contract(Row(a, MandelSlot(i, j)), Col(b, MandelSlot(k, l)))
    ensures R4.At(R4.Dot(ToFull(s2, a), ToFull(s2, b)), i, j, k, l) == c * d * v
  {
    var p, q := MandelSlot(i, j), MandelSlot(k, l);
    LeftSlice(s2, a, i, j);
    RightSlice(s2, b, k, l);
    Sym.ContractAgrees(s2, Row(a, p), Col(b, q));
    R4.DotEntry(ToFull(s2, a), ToFull(s2, b), i, j, k, l, c, Sym.ToFull(s2, Row(a, p)), d, Sym.ToFull(s2, Col(b, q)), v);
  }

  /** The same entry of the embedding of the 6x6 product. */
  lemma DotEntry(s2: real, a: SymSym, b: SymSym, i: Ix, j: Ix, k: Ix, l: Ix, c: real, d: real, v: real)
    requires c == InvWeight(s2, MandelSlot(i, j)) && d == InvWeight(s2, MandelSlot(k, l))
    requires v == Sym.Contract(Row(a, MandelSlot(i, j)), Col(b, MandelSlot(k, l)))
    ensures R4.At(ToFull(s2, Dot(a, b)), i, j, k, l) == c * d * v
  {
    var p, q := MandelSlot(i, j), MandelSlot(k, l);
    assert Comp(Dot(a, b), p, q) == v;
    SlotEntry(s2, Dot(a, b), i, j, k, l, p, q, c * (v * d));
    assert c * d * v == c * (v * d);
  }

  /** The 6x6 matrix product is the full product of the embeddings. */
  lemma DotAgrees(s2: real, a: SymSym, b: SymSym)
    requires Root2(s2)
    ensures ToFull(s2, Dot(a, b)) == R4.Dot(ToFull(s2, a), ToFull(s2, b))
  {
    forall i: Ix, j: Ix, k: Ix, l: Ix
      ensures R4.At(ToFull(s2, Dot(a, b)), i, j, k, l) == R4.At(R4.Dot(ToFull(s2, a), ToFull(s2, b)), i, j, k, l)
    {
      var p, q := MandelSlot(i, j), MandelSlot(k, l);
      var c, d, v := InvWeight(s2, p), InvWeight(s2, q), Sym.Contract(Row(a, p), Col(b, q));
      FullDotEntry(s2, a, b, i, j, k, l, c, d, v);
      DotEntry(s2, a, b, i, j, k, l, c, d, v);
    }
    R4.Ext(ToFull(s2, Dot(a, b)), R4.Dot(ToFull(s2, a), ToFull(s2, b)));
  }

  /** The product with a skew tensor vanishes: the embedding is symmetric in
      its second pair. */
  lemma ApplySkewZero(s2: real, a: SymSym, w: Sk.Skew)
    ensures ApplySkew(s2, a, w) == F.Zero()
  {
    forall i: Ix, j: Ix
      ensures F.At(ApplySkew(s2, a, w), i, j) == F.At(F.Zero(), i, j)
    {
      var p := MandelSlot(i, j);
      LeftSlice(s2, a, i, j);
      X.SymSkewOrthogonal(s2, Row(a, p), w);
      R4.ApplyEntry(ToFull(s2, a), Sk.ToFull(w), i, j, InvWeight(s2, p), Sym.ToFull(s2, Row(a, p)), 0.0);
    }
    F.Ext(ApplySkew(s2, a, w), F.Zero());
  }

  /** The product with a general rank-2 tensor only sees its symmetric part. */
  lemma ApplyFullSymPart(s2: real, a: SymSym, x: F.RankTwo)
    requires Root2(s2)
    ensures ApplyFull(s2, a, x) == Sym.ToFull(s2, Apply(a, Sym.FromFull(s2, x)))
  {
    var c := ToFull(s2, a);
    var ys := Sym.ToFull(s2, Sym.FromFull(s2, x));
    var yw := Sk.ToFull(Sk.FromFull(x));
    X.Split(s2, x);
    R4.ApplyLinear(c, ys, yw);
    ApplySkewZero(s2, a, Sk.FromFull(x));
    ApplyAgrees(s2, a, Sym.FromFull(s2, x));
    F.Ext(F.Add(R4.Apply(c, ys), F.Zero()), R4.Apply(c, ys));
  }

  /** The embedding of `douter(a, b)` is the outer product of the embeddings. */
  lemma DouterFull(s2: real, a: Sym.Symmetric, b: Sym.Symmetric, i: Ix, j: Ix, k: Ix, l: Ix)
    ensures R4.At(ToFull(s2, Douter(a, b)), i, j, k, l) ==
            F.At(Sym.ToFull(s2, a), i, j) * F.At(Sym.ToFull(s2, b), k, l)
  {
    DouterComp(a, b, MandelSlot(i, j), MandelSlot(k, l));
    Sym.ToFullAt(s2, a, i, j);
    Sym.ToFullAt(s2, b, k, l);
    OuterEntry(s2, Douter(a, b), a, b, i, j, k, l, F.At(Sym.ToFull(s2, a), i, j), F.At(Sym.ToFull(s2, b), k, l));
  }

  lemma DouterComp(a: Sym.Symmetric, b: Sym.Symmetric, p: Slot, q: Slot)
    ensures Comp(Douter(a, b), p, q) == Sym.Comp(a, p) * Sym.Comp(b, q)
  {
  }

  /** An entry of the embedding of a tensor whose component (p, q) is the
      product of component p of a and component q of b. */
  lemma OuterEntry(s2: real, d: SymSym, a: Sym.Symmetric, b: Sym.Symmetric, i: Ix, j: Ix, k: Ix, l: Ix, u: real, v: real)
    requires Comp(d, MandelSlot(i, j), MandelSlot(k, l)) == Sym.Comp(a, MandelSlot(i, j)) * Sym.Comp(b, MandelSlot(k, l))
    requires u == Sym.Comp(a, MandelSlot(i, j)) * InvWeight(s2, MandelSlot(i, j))
    requires v == Sym.Comp(b, MandelSlot(k, l)) * InvWeight(s2, MandelSlot(k, l))
    ensures R4.At(ToFull(s2, d), i, j, k, l) == u * v
  {
    var p, q := MandelSlot(i, j), MandelSlot(k, l);
    ToFullEntry(s2, d, i, j, k, l);
    var w, x, y, z := InvWeight(s2, p), Sym.Comp(a, p), Sym.Comp(b, q), InvWeight(s2, q);
    assert w * ((x * y) * z) == (x * w) * (y * z);
  }

  /** `douter(a, b)` maps x to (b : x) a. */
  lemma DouterApply(a: Sym.Symmetric, b: Sym.Symmetric, x: Sym.Symmetric)
    ensures Apply(Douter(a, b), x) == Sym.Scale(Sym.Contract(b, x), a)
  {
    forall p: Slot
      ensures Sym.Comp(Apply(Douter(a, b), x), p) == Sym.Comp(Sym.Scale(Sym.Contract(b, x), a), p)
    {
      DouterApplyComp(a, b, x, p, Sym.Contract(b, x));
    }
    Sym.Ext(Apply(Douter(a, b), x), Sym.Scale(Sym.Contract(b, x), a));
  }

  /** Component p of the product is the contraction of row p with the argument. */
  lemma ApplyComp(a: SymSym, x: Sym.Symmetric, p: Slot)
    ensures Sym.Comp(Apply(a, x), p) == Sym.Contract(Row(a, p), x)
  {
  }

  /** Row p of the outer product is the second factor scaled by component p of the first. */
  lemma DouterRow(a: Sym.Symmetric, b: Sym.Symmetric, p: Slot)
    ensures Row(Douter(a, b), p) == Sym.Scale(Sym.Comp(a, p), b)
  {
    Sym.Ext(Row(Douter(a, b), p), Sym.Scale(Sym.Comp(a, p), b));
  }

  lemma DouterApplyComp(a: Sym.Symmetric, b: Sym.Symmetric, x: Sym.Symmetric, p: Slot, e: real)
    requires Sym.Contract(b, x) == e
    ensures Sym.Comp(Apply(Douter(a, b), x), p) == Sym.Comp(Sym.Scale(e, a), p)
  {
    ApplyComp(Douter(a, b), x, p);
    DouterRow(a, b, p);
    Sym.ContractScaleValue(Sym.Comp(a, p), b, x, e);
    assert Sym.Comp(Sym.Scale(e, a), p) == e * Sym.Comp(a, p);
  }
}
