/** The products between the rank-4 classes, and between a general rank-4
    tensor and the reduced rank-2 classes. Each product is the full
    double contraction of the embedded operands; the lemmas say which
    symmetry the result keeps, which products vanish identically, and
    which reduced matrix product the others equal. */
module MixedProducts {
  import opened Indexing
  import V = Vectors
  import F = RankTwoFull
  import R4 = RankFourFull
  import Sym = SymmetricTensor
  import Sk = SkewTensor
  import X = RankTwoMixed
  import SS = SymSymTensor
  import SW = SymSkewTensor
  import WS = SkewSymTensor

  // RankFour times a reduced operand.

  /** `RankFour::dot(const SymSym &)`. */
  function DotSymSym(s2: real, c: R4.RankFour, b: SS.SymSym): R4.RankFour {
    R4.Dot(c, SS.ToFull(s2, b))
  }

  /** `RankFour::dot(const SymSkew &)`. */
  function DotSymSkew(s2: real, c: R4.RankFour, b: SW.SymSkew): R4.RankFour {
    R4.Dot(c, SW.ToFull(s2, b))
  }

  /** `RankFour::dot(const SkewSym &)`. */
  function DotSkewSym(s2: real, c: R4.RankFour, b: WS.SkewSym): R4.RankFour {
    R4.Dot(c, WS.ToFull(s2, b))
  }

  /** `RankFour::dot(const Symmetric &)`. */
  function ApplySym(s2: real, c: R4.RankFour, x: Sym.Symmetric): F.RankTwo {
    R4.Apply(c, Sym.ToFull(s2, x))
  }

  /** `RankFour::dot(const Skew &)`. */
  function ApplySkew(c: R4.RankFour, w: Sk.Skew): F.RankTwo {
    R4.Apply(c, Sk.ToFull(w))
  }

  // A reduced operand times RankFour.

  /** `SymSym::dot(const RankFour &)`. */
  function SymSymDot(s2: real, a: SS.SymSym, c: R4.RankFour): R4.RankFour {
    R4.Dot(SS.ToFull(s2, a), c)
  }

  /** `SymSkew::dot(const RankFour &)`. */
  function SymSkewDot(s2: real, a: SW.SymSkew, c: R4.RankFour): R4.RankFour {
    R4.Dot(SW.ToFull(s2, a), c)
  }

  /** `SkewSym::dot(const RankFour &)`. */
  function SkewSymDot(s2: real, a: WS.SkewSym, c: R4.RankFour): R4.RankFour {
    R4.Dot(WS.ToFull(s2, a), c)
  }

  // Products between two reduced classes.

  /** `SymSym::dot(const SymSkew &)`. */
  function SymSymSymSkew(s2: real, a: SS.SymSym, b: SW.SymSkew): R4.RankFour {
    R4.Dot(SS.ToFull(s2, a), SW.ToFull(s2, b))
  }

  /** `SymSym::dot(const SkewSym &)`. */
  function SymSymSkewSym(s2: real, a: SS.SymSym, b: WS.SkewSym): R4.RankFour {
    R4.Dot(SS.ToFull(s2, a), WS.ToFull(s2, b))
  }

  /** `SymSkew::dot(const SymSym &)`. */
  function SymSkewSymSym(s2: real, a: SW.SymSkew, b: SS.SymSym): R4.RankFour {
    R4.Dot(SW.ToFull(s2, a), SS.ToFull(s2, b))
  }

  /** `SymSkew::dot(const SymSkew &)`. */
  function SymSkewSymSkew(s2: real, a: SW.SymSkew, b: SW.SymSkew): R4.RankFour {
    R4.Dot(SW.ToFull(s2, a), SW.ToFull(s2, b))
  }

  /** `SymSkew::dot(const SkewSym &)`. */
  function SymSkewSkewSym(s2: real, a: SW.SymSkew, b: WS.SkewSym): R4.RankFour {
    R4.Dot(SW.ToFull(s2, a), WS.ToFull(s2, b))
  }

  /** `SkewSym::dot(const SymSym &)`. */
  function SkewSymSymSym(s2: real, a: WS.SkewSym, b: SS.SymSym): R4.RankFour {
    R4.Dot(WS.ToFull(s2, a), SS.ToFull(s2, b))
  }

  /** `SkewSym::dot(const SkewSym &)`. */
  function SkewSymSkewSym(s2: real, a: WS.SkewSym, b: WS.SkewSym): R4.RankFour {
    R4.Dot(WS.ToFull(s2, a), WS.ToFull(s2, b))
  }

  /** `SkewSym::dot(const SymSkew &)`. */
  function SkewSymSymSkew(s2: real, a: WS.SkewSym, b: SW.SymSkew): R4.RankFour {
    R4.Dot(WS.ToFull(s2, a), SW.ToFull(s2, b))
  }

  // Reduced matrix products for the products that do not vanish.

  /** The 6x3 product of the 6x6 matrix of a and the 6x3 matrix of b. */
  function SymSymTimesSymSkew(a: SS.SymSym, b: SW.SymSkew): SW.SymSkew {
    SW.Build((p: Slot, k: Ix) => Sym.Contract(SS.Row(a, p), SW.Col(b, k)))
  }

  /** The 6x6 product of the 6x3 matrix of a and the 3x6 matrix of b. */
  function SymSkewTimesSkewSym(a: SW.SymSkew, b: WS.SkewSym): SS.SymSym {
    SS.Build((p: Slot, q: Slot) => V.Dot(Sk.Axial(SW.Row(a, p)), Sk.Axial(WS.Col(b, q))))
  }

  /** The 3x6 product of the 3x6 matrix of a and the 6x6 matrix of b. */
  function SkewSymTimesSymSym(a: WS.SkewSym, b: SS.SymSym): WS.SkewSym {
    WS.Build((k: Ix, q: Slot) => Sym.Contract(WS.Row(a, k), SS.Col(b, q)))
  }

  /** Multiplying by a reduced operand on the right gives a result with that
      operand's symmetry in the second pair. */
  lemma RankFourDotKeepsRight(s2: real, c: R4.RankFour, ss: SS.SymSym, sw: SW.SymSkew, ws: WS.SkewSym)
    ensures R4.SymmetricRight(DotSymSym(s2, c, ss))
    ensures R4.SkewRight(DotSymSkew(s2, c, sw))
    ensures R4.SymmetricRight(DotSkewSym(s2, c, ws))
  {
    SS.ToFullMinorSymmetric(s2, ss);
    SW.ToFullSymmetries(s2, sw);
    WS.ToFullSymmetries(s2, ws);
    R4.DotKeepsRight(c, SS.ToFull(s2, ss));
    R4.DotKeepsRight(c, SW.ToFull(s2, sw));
    R4.DotKeepsRight(c, WS.ToFull(s2, ws));
  }

  /** Multiplying by a reduced operand on the left gives a result with that
      operand's symmetry in the first pair. */
  lemma ClassDotRankFourKeepsLeft(s2: real, c: R4.RankFour, ss: SS.SymSym, sw: SW.SymSkew, ws: WS.SkewSym)
    ensures R4.SymmetricLeft(SymSymDot(s2, ss, c))
    ensures R4.SymmetricLeft(SymSkewDot(s2, sw, c))
    ensures R4.SkewLeft(SkewSymDot(s2, ws, c))
  {
    SS.ToFullMinorSymmetric(s2, ss);
    SW.ToFullSymmetries(s2, sw);
    WS.ToFullSymmetries(s2, ws);
    R4.DotKeepsLeft(SS.ToFull(s2, ss), c);
    R4.DotKeepsLeft(SW.ToFull(s2, sw), c);
    R4.DotKeepsLeft(WS.ToFull(s2, ws), c);
  }

  /** A product whose inner pairs meet a symmetric and a skew side vanishes. */
  lemma VanishingProducts(s2: real, ss: SS.SymSym, sw: SW.SymSkew, sw2: SW.SymSkew, ws: WS.SkewSym, ws2: WS.SkewSym)
    ensures SymSymSkewSym(s2, ss, ws) == R4.Zero()
    ensures SymSkewSymSym(s2, sw, ss) == R4.Zero()
    ensures SymSkewSymSkew(s2, sw, sw2) == R4.Zero()
    ensures SkewSymSkewSym(s2, ws, ws2) == R4.Zero()
  {
    SS.ToFullMinorSymmetric(s2, ss);
    SW.ToFullSymmetries(s2, sw);
    SW.ToFullSymmetries(s2, sw2);
    WS.ToFullSymmetries(s2, ws);
    WS.ToFullSymmetries(s2, ws2);
    R4.DotSymmetricSkew(SS.ToFull(s2, ss), WS.ToFull(s2, ws));
    R4.DotSymmetricSkew(SW.ToFull(s2, sw), SS.ToFull(s2, ss));
    R4.DotSymmetricSkew(SW.ToFull(s2, sw), SW.ToFull(s2, sw2));
    R4.DotSymmetricSkew(WS.ToFull(s2, ws), WS.ToFull(s2, ws2));
  }

  /** The product with a symmetric-right tensor only sees the symmetric part
      of its argument, and the product with a skew-right tensor only the
      skew part. */
  lemma RankFourApplyParts(s2: real, c: R4.RankFour, y: F.RankTwo)
    requires Root2(s2)
    ensures R4.SymmetricRight(c) ==> R4.Apply(c, y) == ApplySym(s2, c, Sym.FromFull(s2, y))
    ensures R4.SkewRight(c) ==> R4.Apply(c, y) == ApplySkew(c, Sk.FromFull(y))
  {
    var ys := Sym.ToFull(s2, Sym.FromFull(s2, y));
    var yw := Sk.ToFull(Sk.FromFull(y));
    X.Split(s2, y);
    R4.ApplyLinear(c, ys, yw);
    Sym.ToFullSymmetric(s2, Sym.FromFull(s2, y));
    Sk.ToFullSkew(Sk.FromFull(y));
    if R4.SymmetricRight(c) {
      R4.ApplySymmetricSkew(c, yw);
      F.Ext(F.Add(R4.Apply(c, ys), F.Zero()), R4.Apply(c, ys));
    }
    if R4.SkewRight(c) {
      R4.ApplySymmetricSkew(c, ys);
      F.Ext(F.Add(F.Zero(), R4.Apply(c, yw)), R4.Apply(c, yw));
    }
  }

  // SymSym times SymSkew.

  lemma SymSymSymSkewFull(s2: real, a: SS.SymSym, b: SW.SymSkew, i: Ix, j: Ix, k: Ix, l: Ix, c: real, d: real, v: real)
    requires Root2(s2)
    requires c == InvWeight(s2, MandelSlot(i, j)) && d == Sign(k, l) / 2.0
    requires v == Sym.Contract(SS.Row(a, MandelSlot(i, j)), SW.Col(b, Axis(k, l)))
    ensures R4.At(SymSymSymSkew(s2, a, b), i, j, k, l) == c * d * v
  {
    var x, y := Sym.ToFull(s2, SS.Row(a, MandelSlot(i, j))), Sym.ToFull(s2, SW.Col(b, Axis(k, l)));
    SS.LeftSlice(s2, a, i, j);
    SW.RightSlice(s2, b, k, l);
    Sym.ContractAgrees(s2, SS.Row(a, MandelSlot(i, j)), SW.Col(b, Axis(k, l)));
    R4.DotEntry(SS.ToFull(s2, a), SW.ToFull(s2, b), i, j, k, l, c, x, d, y, v);
  }

  lemma SymSymSymSkewReduced(s2: real, a: SS.SymSym, b: SW.SymSkew, i: Ix, j: Ix, k: Ix, l: Ix, c: real, d: real, v: real)
    requires c == InvWeight(s2, MandelSlot(i, j)) && d == Sign(k, l) / 2.0
    requires v == Sym.Contract(SS.Row(a, MandelSlot(i, j)), SW.Col(b, Axis(k, l)))
    ensures R4.At(SW.ToFull(s2, SymSymTimesSymSkew(a, b)), i, j, k, l) == c * d * v
  {
    assert SW.Comp(SymSymTimesSymSkew(a, b), MandelSlot(i, j), Axis(k, l)) == v;
    SymSkewEntry(s2, SymSymTimesSymSkew(a, b), i, j, k, l, c, d, v);
  }

  /** An entry of the embedding of a symmetric-skew tensor with a known component. */
  lemma SymSkewEntry(s2: real, t: SW.SymSkew, i: Ix, j: Ix, k: Ix, l: Ix, c: real, d: real, v: real)
    requires c == InvWeight(s2, MandelSlot(i, j)) && d == Sign(k, l) / 2.0
    requires SW.Comp(t, MandelSlot(i, j), Axis(k, l)) == v
    ensures R4.At(SW.ToFull(s2, t), i, j, k, l) == c * d * v
  {
    SW.ToFullEntry(s2, t, i, j, k, l);
    assert c / 2.0 * (Sign(k, l) * v) == c * d * v;
  }

  lemma SymSymSymSkewReducesEntry(s2: real, a: SS.SymSym, b: SW.SymSkew, i: Ix, j: Ix, k: Ix, l: Ix)
    requires Root2(s2)
    ensures R4.At(SymSymSymSkew(s2, a, b), i, j, k, l) == R4.At(SW.ToFull(s2, SymSymTimesSymSkew(a, b)), i, j, k, l)
  {
    var c, d := InvWeight(s2, MandelSlot(i, j)), Sign(k, l) / 2.0;
    var v := Sym.Contract(SS.Row(a, MandelSlot(i, j)), SW.Col(b, Axis(k, l)));
    SymSymSymSkewFull(s2, a, b, i, j, k, l, c, d, v);
    SymSymSymSkewReduced(s2, a, b, i, j, k, l, c, d, v);
  }

  /** `SymSym * SymSkew` is the embedding of the 6x3 matrix product. */
  lemma SymSymSymSkewReduces(s2: real, a: SS.SymSym, b: SW.SymSkew)
    requires Root2(s2)
    ensures SymSymSymSkew(s2, a, b) == SW.ToFull(s2, SymSymTimesSymSkew(a, b))
  {
    forall i: Ix, j: Ix, k: Ix, l: Ix
      ensures R4.At(SymSymSymSkew(s2, a, b), i, j, k, l) == R4.At(SW.ToFull(s2, SymSymTimesSymSkew(a, b)), i, j, k, l)
    {
      SymSymSymSkewReducesEntry(s2, a, b, i, j, k, l);
    }
    R4.Ext(SymSymSymSkew(s2, a, b), SW.ToFull(s2, SymSymTimesSymSkew(a, b)));
  }

  // SymSkew times SkewSym.

  lemma SymSkewSkewSymFull(s2: real, a: SW.SymSkew, b: WS.SkewSym, i: Ix, j: Ix, k: Ix, l: Ix, c: real, d: real, v: real)
    requires c == InvWeight(s2, MandelSlot(i, j)) / 2.0 && d == InvWeight(s2, MandelSlot(k, l))
    requires v == Sk.Contract(SW.Row(a, MandelSlot(i, j)), WS.Col(b, MandelSlot(k, l)))
    ensures R4.At(SymSkewSkewSym(s2, a, b), i, j, k, l) == c * d * v
  {
    var x, y := Sk.ToFull(SW.Row(a, MandelSlot(i, j))), Sk.ToFull(WS.Col(b, MandelSlot(k, l)));
    SW.LeftSlice(s2, a, i, j);
    WS.RightSlice(s2, b, k, l);
    Sk.ContractAgrees(SW.Row(a, MandelSlot(i, j)), WS.Col(b, MandelSlot(k, l)));
    R4.DotEntry(SW.ToFull(s2, a), WS.ToFull(s2, b), i, j, k, l, c, x, d, y, v);
  }

  lemma SymSkewSkewSymReduced(s2: real, a: SW.SymSkew, b: WS.SkewSym, i: Ix, j: Ix, k: Ix, l: Ix, h: real, u: real, t: real)
    requires h == InvWeight(s2, MandelSlot(i, j)) / 2.0 && u == InvWeight(s2, MandelSlot(k, l))
    requires t == Sk.Contract(SW.Row(a, MandelSlot(i, j)), WS.Col(b, MandelSlot(k, l)))
    ensures R4.At(SS.ToFull(s2, SymSkewTimesSkewSym(a, b)), i, j, k, l) == h * u * t
  {
    var ra, cb := SW.Row(a, MandelSlot(i, j)), WS.Col(b, MandelSlot(k, l));
    var e := V.Dot(Sk.Axial(ra), Sk.Axial(cb));
    Sk.ContractIsDot(ra, cb);
    assert SS.Comp(SymSkewTimesSkewSym(a, b), MandelSlot(i, j), MandelSlot(k, l)) == e;
    SymSymEntry(s2, SymSkewTimesSkewSym(a, b), i, j, k, l, h, u, t, e);
  }

  /** An entry of the embedding of a symmetric-symmetric tensor whose
      component is half the contraction t. */
  lemma SymSymEntry(s2: real, m: SS.SymSym, i: Ix, j: Ix, k: Ix, l: Ix, h: real, u: real, t: real, e: real)
    requires h == InvWeight(s2, MandelSlot(i, j)) / 2.0 && u == InvWeight(s2, MandelSlot(k, l)) && t == 2.0 * e
    requires SS.Comp(m, MandelSlot(i, j), MandelSlot(k, l)) == e
    ensures R4.At(SS.ToFull(s2, m), i, j, k, l) == h * u * t
  {
    SS.ToFullEntry(s2, m, i, j, k, l);
    assert InvWeight(s2, MandelSlot(i, j)) * (e * u) == h * u * t;
  }

  lemma SymSkewSkewSymReducesEntry(s2: real, a: SW.SymSkew, b: WS.SkewSym, i: Ix, j: Ix, k: Ix, l: Ix)
    ensures R4.At(SymSkewSkewSym(s2, a, b), i, j, k, l) == R4.At(SS.ToFull(s2, SymSkewTimesSkewSym(a, b)), i, j, k, l)
  {
    var h, u := InvWeight(s2, MandelSlot(i, j)) / 2.0, InvWeight(s2, MandelSlot(k, l));
    var t := Sk.Contract(SW.Row(a, MandelSlot(i, j)), WS.Col(b, MandelSlot(k, l)));
    SymSkewSkewSymFull(s2, a, b, i, j, k, l, h, u, t);
    SymSkewSkewSymReduced(s2, a, b, i, j, k, l, h, u, t);
  }

  /** `SymSkew * SkewSym` is the embedding of the 6x6 matrix product; it
      needs no relation between the scale and the square root of two. */
  lemma SymSkewSkewSymReduces(s2: real, a: SW.SymSkew, b: WS.SkewSym)
    ensures SymSkewSkewSym(s2, a, b) == SS.ToFull(s2, SymSkewTimesSkewSym(a, b))
  {
    forall i: Ix, j: Ix, k: Ix, l: Ix
      ensures R4.At(SymSkewSkewSym(s2, a, b), i, j, k, l) == R4.At(SS.ToFull(s2, SymSkewTimesSkewSym(a, b)), i, j, k, l)
    {
      SymSkewSkewSymReducesEntry(s2, a, b, i, j, k, l);
    }
    R4.Ext(SymSkewSkewSym(s2, a, b), SS.ToFull(s2, SymSkewTimesSkewSym(a, b)));
  }

  // SkewSym times SymSym.

  lemma SkewSymSymSymFull(s2: real, a: WS.SkewSym, b: SS.SymSym, i: Ix, j: Ix, k: Ix, l: Ix, c: real, d: real, v: real)
    requires Root2(s2)
    requires c == Sign(i, j) && d == InvWeight(s2, MandelSlot(k, l))
    requires v == Sym.Contract(WS.Row(a, Axis(i, j)), SS.Col(b, MandelSlot(k, l)))
    ensures R4.At(SkewSymSymSym(s2, a, b), i, j, k, l) == c * d * v
  {
    var x, y := Sym.ToFull(s2, WS.Row(a, Axis(i, j))), Sym.ToFull(s2, SS.Col(b, MandelSlot(k, l)));
    WS.LeftSlice(s2, a, i, j);
    SS.RightSlice(s2, b, k, l);
    Sym.ContractAgrees(s2, WS.Row(a, Axis(i, j)), SS.Col(b, MandelSlot(k, l)));
    R4.DotEntry(WS.ToFull(s2, a), SS.ToFull(s2, b), i, j, k, l, c, x, d, y, v);
  }

  lemma SkewSymSymSymReduced(s2: real, a: WS.SkewSym, b: SS.SymSym, i: Ix, j: Ix, k: Ix, l: Ix, c: real, d: real, v: real)
    requires c == Sign(i, j) && d == InvWeight(s2, MandelSlot(k, l))
    requires v == Sym.Contract(WS.Row(a, Axis(i, j)), SS.Col(b, MandelSlot(k, l)))
    ensures R4.At(WS.ToFull(s2, SkewSymTimesSymSym(a, b)), i, j, k, l) == c * (v * d)
  {
    assert WS.Comp(SkewSymTimesSymSym(a, b), Axis(i, j), MandelSlot(k, l)) == v;
    SkewSymEntry(s2, SkewSymTimesSymSym(a, b), i, j, k, l, c, d, v);
  }

  /** An entry of the embedding of a skew-symmetric tensor with a known component. */
  lemma SkewSymEntry(s2: real, t: WS.SkewSym, i: Ix, j: Ix, k: Ix, l: Ix, c: real, d: real, v: real)
    requires c == Sign(i, j) && d == InvWeight(s2, MandelSlot(k, l))
    requires WS.Comp(t, Axis(i, j), MandelSlot(k, l)) == v
    ensures R4.At(WS.ToFull(s2, t), i, j, k, l) == c * (v * d)
  {
    WS.ToFullEntry(s2, t, i, j, k, l);
  }

  lemma SkewSymSymSymReducesEntry(s2: real, a: WS.SkewSym, b: SS.SymSym, i: Ix, j: Ix, k: Ix, l: Ix)
    requires Root2(s2)
    ensures R4.At(SkewSymSymSym(s2, a, b), i, j, k, l) == R4.At(WS.ToFull(s2, SkewSymTimesSymSym(a, b)), i, j, k, l)
  {
    var c, d := Sign(i, j), InvWeight(s2, MandelSlot(k, l));
    var v := Sym.Contract(WS.Row(a, Axis(i, j)), SS.Col(b, MandelSlot(k, l)));
    SkewSymSymSymFull(s2, a, b, i, j, k, l, c, d, v);
    SkewSymSymSymReduced(s2, a, b, i, j, k, l, c, d, v);
    assert c * v * d == c * (d * v);
  }

  /** `SkewSym * SymSym` is the embedding of the 3x6 matrix product. */
  lemma SkewSymSymSymReduces(s2: real, a: WS.SkewSym, b: SS.SymSym)
    requires Root2(s2)
    ensures SkewSymSymSym(s2, a, b) == WS.ToFull(s2, SkewSymTimesSymSym(a, b))
  {
    forall i: Ix, j: Ix, k: Ix, l: Ix
      ensures R4.At(SkewSymSymSym(s2, a, b), i, j, k, l) == R4.At(WS.ToFull(s2, SkewSymTimesSymSym(a, b)), i, j, k, l)
    {
      SkewSymSymSymReducesEntry(s2, a, b, i, j, k, l);
    }
    R4.Ext(SkewSymSymSym(s2, a, b), WS.ToFull(s2, SkewSymTimesSymSym(a, b)));
  }

  // SkewSym times SymSkew.

  /** `SkewSym * SymSkew` is skew in both pairs; entry (i, j, k, l) is half
      the signed Mandel contraction of row Axis(i, j) of a with column
      Axis(k, l) of b. */
  lemma SkewSymSymSkewEntry(s2: real, a: WS.SkewSym, b: SW.SymSkew, i: Ix, j: Ix, k: Ix, l: Ix, c: real, d: real, v: real)
    requires Root2(s2)
    requires c == Sign(i, j) && d == Sign(k, l) / 2.0
    requires v == Sym.Contract(WS.Row(a, Axis(i, j)), SW.Col(b, Axis(k, l)))
    ensures R4.At(SkewSymSymSkew(s2, a, b), i, j, k, l) == c * d * v
    ensures R4.SkewLeft(SkewSymSymSkew(s2, a, b)) && R4.SkewRight(SkewSymSymSkew(s2, a, b))
  {
    SkewSymSymSkewValue(s2, a, b, i, j, k, l, c, d, v);
    SkewSymSymSkewSymmetries(s2, a, b);
  }

  lemma SkewSymSymSkewValue(s2: real, a: WS.SkewSym, b: SW.SymSkew, i: Ix, j: Ix, k: Ix, l: Ix, c: real, d: real, v: real)
    requires Root2(s2)
    requires c == Sign(i, j) && d == Sign(k, l) / 2.0
    requires v == Sym.Contract(WS.Row(a, Axis(i, j)), SW.Col(b, Axis(k, l)))
    ensures R4.At(SkewSymSymSkew(s2, a, b), i, j, k, l) == c * d * v
  {
    var x, y := Sym.ToFull(s2, WS.Row(a, Axis(i, j))), Sym.ToFull(s2, SW.Col(b, Axis(k, l)));
    WS.LeftSlice(s2, a, i, j);
    SW.RightSlice(s2, b, k, l);
    Sym.ContractAgrees(s2, WS.Row(a, Axis(i, j)), SW.Col(b, Axis(k, l)));
    R4.DotEntry(WS.ToFull(s2, a), SW.ToFull(s2, b), i, j, k, l, c, x, d, y, v);
  }

  lemma SkewSymSymSkewSymmetries(s2: real, a: WS.SkewSym, b: SW.SymSkew)
    ensures R4.SkewLeft(SkewSymSymSkew(s2, a, b)) && R4.SkewRight(SkewSymSymSkew(s2, a, b))
  {
    WS.ToFullSymmetries(s2, a);
    SW.ToFullSymmetries(s2, b);
    R4.DotKeepsLeft(WS.ToFull(s2, a), SW.ToFull(s2, b));
    R4.DotKeepsRight(WS.ToFull(s2, a), SW.ToFull(s2, b));
  }
}
