/** Index conventions shared by every tensor class.

    A spatial index ranges over 0..2.  Symmetric rank-2 tensors are stored in
    Mandel order (11, 22, 33, 23, 13, 12): the first three slots are the
    diagonal, the last three the off-diagonal pairs scaled by the square root
    of two.  Skew rank-2 tensors are stored as their axial vector w, so that
    the full matrix W satisfies W v = w x v.

    The square root of two cannot be written as a Dafny literal, so it is an
    explicit parameter `s2`; every statement that depends on its value asks
    for `Root2(s2)`.
 */
module Indexing {

  /** `s2` is the positive square root of two. */
  predicate Root2(s2: real) {
    s2 > 0.0 && s2 * s2 == 2.0
  }

  /** A spatial index. */
  type Ix = i: int | 0 <= i < 3

  /** A Mandel slot of a symmetric rank-2 tensor. */
  type Slot = k: int | 0 <= k < 6

  /** The Mandel slot holding the pair (i, j); symmetric in i and j. */
  function MandelSlot(i: Ix, j: Ix): (k: Slot)
    ensures k < 3 <==> i == j
  {
    if i == j then i else 6 - i - j
  }

  /** Row index of the canonical pair stored in slot k. */
  function SlotRow(k: Slot): Ix {
    if k < 3 then k else if k == 3 then 1 else 0
  }

  /** Column index of the canonical pair stored in slot k. */
  function SlotCol(k: Slot): Ix {
    if k < 3 then k else if k == 5 then 1 else 2
  }

  /** Slot k holds exactly its canonical pair, in either order. */
  lemma SlotOfPair(k: Slot)
    ensures MandelSlot(SlotRow(k), SlotCol(k)) == k
  {
  }

  /** The canonical pair of the slot of (i, j) is (i, j) or (j, i). */
  lemma PairOfSlot(i: Ix, j: Ix)
    ensures var k := MandelSlot(i, j);
            (SlotRow(k) == i && SlotCol(k) == j) || (SlotRow(k) == j && SlotCol(k) == i)
  {
  }

  /** The Mandel scale of slot k: one on the diagonal, the square root of two off it. */
  function Weight(s2: real, k: Slot): real {
    if k < 3 then 1.0 else s2
  }

  /** The reciprocal of `Weight`, written without division. */
  function InvWeight(s2: real, k: Slot): real {
    if k < 3 then 1.0 else s2 / 2.0
  }

  lemma WeightInverse(s2: real, k: Slot)
    requires Root2(s2)
    ensures Weight(s2, k) * InvWeight(s2, k) == 1.0
  {
  }

  /** Number of ordered index pairs stored in slot k, which is the square of
      its weight: each off-diagonal slot stands for two entries. */
  function Multiplicity(k: Slot): real {
    if k < 3 then 1.0 else 2.0
  }

  lemma InvWeightSquare(s2: real, k: Slot)
    requires Root2(s2)
    ensures Multiplicity(k) * (InvWeight(s2, k) * InvWeight(s2, k)) == 1.0
  {
  }

  /** Row of the pair (p, q) whose entry of the full skew matrix is +w[k]. */
  function AxialRow(k: Ix): Ix {
    if k == 0 then 2 else if k == 1 then 0 else 1
  }

  /** Column of the pair (p, q) whose entry of the full skew matrix is +w[k]. */
  function AxialCol(k: Ix): Ix {
    if k == 0 then 1 else if k == 1 then 2 else 0
  }

  /** The axial component that entry (i, j) of the full skew matrix holds
      (the index not in the pair); 0 on the diagonal, where nothing is held. */
  function Axis(i: Ix, j: Ix): Ix {
    if i == j then 0 else 3 - i - j
  }

  /** The sign with which entry (i, j) of the full skew matrix holds its
      axial component: zero on the diagonal, opposite for (i, j) and (j, i). */
  function Sign(i: Ix, j: Ix): real {
    if i == j then 0.0 else if i == AxialRow(3 - i - j) then 1.0 else -1.0
  }

  /** The canonical pair of axial component k holds it with sign +1, and
      swapping a pair flips the sign but keeps the component. */
  lemma SignProperties(i: Ix, j: Ix, k: Ix)
    ensures Axis(AxialRow(k), AxialCol(k)) == k && Sign(AxialRow(k), AxialCol(k)) == 1.0
    ensures Axis(AxialCol(k), AxialRow(k)) == k && Sign(AxialCol(k), AxialRow(k)) == -1.0
    ensures Axis(j, i) == Axis(i, j) && Sign(j, i) == -Sign(i, j)
    ensures i != j ==> (i, j) == (AxialRow(Axis(i, j)), AxialCol(Axis(i, j))) || (j, i) == (AxialRow(Axis(i, j)), AxialCol(Axis(i, j)))
  {
  }
}
