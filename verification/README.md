# Fixed-size tensor algebra of neml, in Dafny

This project models the tensor algebra that neml declares in
`src/math/tensors.h`. These are the 3-D vectors, rank-2 tensors and rank-4
tensors that its material models are written in. It states the algebra as
pure functions over reals and proves what the storage conventions promise.

The classes covered are:

- `Vector`.
- The three rank-2 classes: `RankTwo` (full, 9 entries), `Symmetric` (6 Mandel
  components) and `Skew` (3 axial components).
- The four rank-4 classes: `RankFour` (81 entries), `SymSym` (6x6), `SymSkew`
  (6x3) and `SkewSym` (3x6).

Every reduced class has an embedding into its full class (`to_full()`, or the
`RankTwo(const Symmetric &)` and `RankTwo(const Skew &)` constructors). It
also has a projection back (the `Symmetric(const RankTwo &)` and
`Skew(const RankTwo &)` constructors, and `RankFour::to_sym()`,
`to_symskew()` and `to_skewsym()`).

Some reduced operations are computed directly on the stored components. Each
of them is proved to agree with the same operation on the full tensors, which
is the guarantee the Mandel convention exists to give. They are:

- `Trace` of `Symmetric`; `Contract`, `Apply` and `ApplyLeft` of `Symmetric`
  and `Skew`;
- `Apply`, `Dot` and `Douter` of `SymSym`, `Act` and `Douter` of `SkewSym`,
  and `Act` of `SymSkew`;
- the products of `MixedProducts` that return a reduced class
  (`SymSymTimesSymSkew`, `SymSkewTimesSkewSym`, `SkewSymTimesSymSym`).

The other operations are defined through the embeddings: the full operation is
applied to the embedded tensors, and the result is projected back where the
header returns a reduced class. These are:

- `Symmetric.Inverse`;
- the in-class products `DotSymSym` and `DotSkewSkew`;
- `ApplySkew`, `ApplySym` and `ApplyFull` of the reduced rank-4 classes;
- the rank-4 products that return a full `RankFour`.

## Conventions of the model

- **Reals, not doubles.** Every component is a `real`, so there is no
  rounding.
- **The square root of two is a parameter.** Every member that needs it takes
  `s2`. Its facts require `Indexing.Root2(s2)`, i.e. `s2 > 0` and `s2 * s2 == 2`.
- **Mandel slots.** A symmetric tensor stores its pairs in the order 11, 22,
  33, 23, 13, 12. Off-diagonal slots are multiplied by the square root of two
  (`Indexing.Weight`). This makes the Euclidean dot product of two Mandel rows
  equal the double contraction of the matrices.
- **Axial storage.** A skew tensor stores its axial vector w. It stands for the
  matrix `[[0, -w2, w1], [w2, 0, -w0], [-w1, w0, 0]]`, which maps v to w x v.
- **Reduced rank-4 layouts.** The reduced rank-4 classes use the same slot
  conventions on each index pair.
  - `SymSym` entry (p, q) is C_ijkl times the weights of both pairs.
  - `SymSkew` entry (p, k) is twice the weight of pair p times C_ijmn, where
    (m, n) is the pair that holds axial component k with sign +1.
  - `SkewSym` entry (k, q) is C_mnkl times the weight of pair q, where (m, n)
    is the pair that holds axial component k with sign +1.
- **Projection of a general rank-4 tensor.** `to_sym()`, `to_symskew()` and
  `to_skewsym()` average each stored component over the index orders that
  share it: (i, j) and (j, i) in a symmetric pair, and (m, n) and (n, m) with
  opposite signs in a skew pair. On a tensor that already has the class's
  symmetries, this reads off the entry.
- **Products within one reduced class.** `Symmetric * Symmetric` and
  `Skew * Skew` are stored back through the symmetrizing and skew-part
  constructors.
- **Helper operations.** The three crystal-plasticity helpers at the end of the
  header are defined by the index formulas in their doc comments. They are
  then projected onto the class each one returns.

The header declares signatures only. Where the layout of a reduced class or
the result of an in-class product is not fixed by a signature, the convention
above is a modelling choice. It is consistent with every declared signature
and with the identities proved here.

Storage is modelled by the fixed-length row types of `Storage`. Inverting a
matrix gives an `Outcomes.Inversion`: `Singular` when the matrix has no
inverse, or `Regular` holding the inverse.

## Model

| member | source | states |
|---|---|---|
| Indexing.MandelSlot | src/math/tensors.h:173-181 | A pair is stored in a diagonal slot (0-2) exactly when its two indices are equal. |
| Indexing.SlotOfPair | src/math/tensors.h:173-181 | Each Mandel slot holds exactly its canonical index pair. |
| Indexing.PairOfSlot | src/math/tensors.h:173-181 | The slot of (i, j) has (i, j) or (j, i) as its canonical pair, so the Mandel layout is symmetric in the pair. |
| Indexing.WeightInverse | src/math/tensors.h:173-181 | The off-diagonal scale and its reciprocal multiply to one, so scaling in and out of Mandel form is lossless. |
| Indexing.InvWeightSquare | src/math/tensors.h:205-207 | A slot's multiplicity times its squared unscale is one: each off-diagonal slot stands for two equal matrix entries. |
| Indexing.SignProperties | src/math/tensors.h:233-236 | Each axial component sits at one pair with sign +1 and at the swapped pair with sign -1; swapping any pair flips the sign. |
| Vectors.NegProperties | src/math/tensors.h:70-71 | `opposite()` is an involution, equals scaling by -1, and adds to zero. |
| Vectors.AddSubProperties | src/math/tensors.h:93-94 | Addition commutes and subtraction undoes it. |
| Vectors.DivUndoesScale | src/math/tensors.h:88-90 | Dividing by a non-zero scalar undoes scaling by it. |
| Vectors.DotProperties | src/math/tensors.h:79 | `dot` is symmetric, linear in its second argument, and non-negative on a vector with itself. |
| Vectors.CrossProperties | src/math/tensors.h:83 | `cross` is anti-commutative and its result is orthogonal to both factors. |
| RankTwoFull.FromRows | src/math/tensors.h:109 | The nested-array constructor stores row i, column j at entry (i, j). |
| RankTwoFull.Inverse | src/math/tensors.h:134 | There is no inverse exactly when the determinant is zero; otherwise the result is a two-sided inverse. |
| RankTwoFull.AdjugateProduct | src/math/tensors.h:134 | A matrix times its adjugate, on either side, is det times the identity (the identity behind `inverse()`). |
| RankTwoFull.TransposeProperties | src/math/tensors.h:135 | `transpose()` is an involution, keeps the trace, reverses products and distributes over sums. |
| RankTwoFull.IdentityNeutral | src/math/tensors.h:129-132 | The identity is neutral for `dot` with a tensor on either side and with a vector; its trace is 3. |
| RankTwoFull.ContractIsTrace | src/math/tensors.h:137 | `contract` is the trace of the transposed product, is symmetric, and contracting with the identity takes the trace. |
| RankTwoFull.ApplyLeftIsTransposed | src/math/tensors.h:160-161 | A row vector times a matrix is the transposed matrix times the vector. |
| RankTwoFull.DotApply | src/math/tensors.h:129-132 | Applying a product to a vector is applying its factors in turn (associativity of `dot`). |
| RankTwoFull.OuterApply | src/math/tensors.h:80 | `outer(a, b)` maps x to (b . x) a, and its trace is a . b. |
| RankTwoFull.SymmetricAdjugate | src/math/tensors.h:134 | The adjugate of a symmetric matrix is symmetric, and `inverse()` of an invertible symmetric matrix succeeds and is symmetric. |
| RankTwoFull.ScaleTranspose | src/math/tensors.h:135 | Scaling commutes with transposition. |
| RankTwoFull.AddNegProperties | src/math/tensors.h:114-118 | `opposite()` is an involution and scaling by -1; addition commutes and subtraction undoes it. |
| RankTwoFull.DivUndoesScale | src/math/tensors.h:143-145 | Dividing by a non-zero scalar undoes scaling by it. |
| RankTwoFull.DotScale | src/math/tensors.h:162 | A scalar factor on the right operand of `dot` moves outside the product. |
| RankTwoFull.ScaleDot | src/math/tensors.h:162 | A scalar factor on the left operand of `dot` moves outside the product. |
| RankTwoFull.ContractAddRight | src/math/tensors.h:137 | `contract` distributes over a sum in its second argument. |
| RankTwoFull.ContractScaleRight | src/math/tensors.h:137 | A scalar factor on the second argument of `contract` moves outside. |
| RankTwoFull.ContractScaleLeft | src/math/tensors.h:137 | A scalar factor on the first argument of `contract` moves outside. |
| RankTwoFull.ContractScaleBoth | src/math/tensors.h:137 | Scalars on both arguments of `contract` multiply outside. |
| RankTwoFull.ContractSymmetricSkew | src/math/tensors.h:137-139 | A symmetric and a skew matrix contract to zero. |
| RankTwoFull.ContractNeg | src/math/tensors.h:137 | Contracting with an opposite negates the result. |
| SymmetricTensor.ToFullSymmetric | src/math/tensors.h:183-194 | `to_full()` gives a symmetric matrix, and `transpose()` of a symmetric tensor matches the transpose of its embedding. |
| SymmetricTensor.FromFullToFull | src/math/tensors.h:181-183 | Symmetrizing the embedding gives back the Mandel components (round trip). |
| SymmetricTensor.ToFullFromFull | src/math/tensors.h:180-183 | Embedding the symmetrized tensor gives the symmetric part (A + A^T)/2. |
| SymmetricTensor.SymmetrizedEntry | src/math/tensors.h:180-181 | Each entry of the symmetrized tensor is the mean of a_ij and a_ji. |
| SymmetricTensor.ToFullFromFullSymmetric | src/math/tensors.h:181-183 | A symmetric matrix survives the trip through Mandel form unchanged. |
| SymmetricTensor.FromFullTranspose | src/math/tensors.h:181 | A matrix and its transpose symmetrize to the same tensor. |
| SymmetricTensor.IdProperties | src/math/tensors.h:191-192 | `id()` embeds to the identity, has trace 3, and contracting with it takes the trace. |
| SymmetricTensor.TraceAgrees | src/math/tensors.h:196 | `trace()` on Mandel components equals the trace of the embedded matrix. |
| SymmetricTensor.ContractAgrees | src/math/tensors.h:206 | The Euclidean product of Mandel rows equals the true double contraction of the embedded matrices. |
| SymmetricTensor.ToFullAdd | src/math/tensors.h:216-217 | The embedding maps Mandel sums and differences to matrix sums and differences. |
| SymmetricTensor.ToFullScale | src/math/tensors.h:211-212 | The embedding maps `opposite()` and scalar multiples to the matching matrix operations. |
| SymmetricTensor.DivUndoesScale | src/math/tensors.h:213 | Dividing by a non-zero scalar undoes scaling by it. |
| SymmetricTensor.ApplyAgrees | src/math/tensors.h:200 | The Mandel tensor times a vector equals the embedded matrix times it. |
| SymmetricTensor.ApplyLeftAgrees | src/math/tensors.h:221 | A vector times the Mandel tensor equals the vector times the embedded matrix. |
| SymmetricTensor.ApplyLeftIsApply | src/math/tensors.h:220-221 | For a symmetric tensor, multiplying a vector from the left or from the right gives the same vector. |
| SymmetricTensor.InverseCorrect | src/math/tensors.h:193 | `inverse()` fails exactly when the embedded determinant is zero; otherwise its embedding is a two-sided inverse of the embedding. |
| SkewTensor.ToFullSkew | src/math/tensors.h:236-244 | The embedding is skew with a zero diagonal, and `transpose()` matches the matrix transpose. |
| SkewTensor.ToFullLayout | src/math/tensors.h:236 | The embedding of w is [[0, -w2, w1], [w2, 0, -w0], [-w1, w0, 0]]. |
| SkewTensor.FromFullToFull | src/math/tensors.h:234-236 | Taking the skew part of the embedding gives back the axial vector (round trip). |
| SkewTensor.ToFullFromFull | src/math/tensors.h:233-236 | Embedding the skew part gives (A - A^T)/2. |
| SkewTensor.ToFullFromFullSkew | src/math/tensors.h:234-236 | A skew matrix survives the trip through its axial vector unchanged. |
| SkewTensor.FromFullTranspose | src/math/tensors.h:234 | The transpose of a matrix has the opposite skew part. |
| SkewTensor.ContractAgrees | src/math/tensors.h:254 | `contract` on axial vectors equals the double contraction of the embedded matrices. |
| SkewTensor.ContractIsDot | src/math/tensors.h:254 | The contraction of two skew tensors is twice the dot product of their axial vectors. |
| SkewTensor.ApplyIsCross | src/math/tensors.h:247 | A skew tensor acts on a vector as the cross product with its axial vector. |
| SkewTensor.ApplyAgrees | src/math/tensors.h:267 | The skew tensor times a vector equals the embedded matrix times it. |
| SkewTensor.ApplyLeftIsOpposite | src/math/tensors.h:267-268 | A vector times a skew tensor is the opposite of the tensor times the vector. |
| SkewTensor.ApplyLeftAgrees | src/math/tensors.h:268 | A vector times the skew tensor equals the vector times the embedded matrix. |
| SkewTensor.ToFullAdd | src/math/tensors.h:263-264 | The embedding maps sums and differences of axial vectors to matrix sums and differences. |
| SkewTensor.ToFullScale | src/math/tensors.h:258-259 | The embedding maps `opposite()` and scalar multiples to the matching matrix operations. |
| SkewTensor.DivUndoesScale | src/math/tensors.h:260 | Dividing by a non-zero scalar undoes scaling by it. |
| RankTwoMixed.Split | src/math/tensors.h:181 | Every matrix is the sum of the embeddings of its symmetric part and its skew part. |
| RankTwoMixed.CrossProjectionsVanish | src/math/tensors.h:234 | A symmetric tensor has a zero skew part, and a skew tensor has a zero symmetric part. |
| RankTwoMixed.SymFromFullAdd | src/math/tensors.h:181 | Symmetrizing is additive. |
| RankTwoMixed.SkewFromFullAdd | src/math/tensors.h:234 | Taking the skew part is additive. |
| RankTwoMixed.AddFullSymProperties | src/math/tensors.h:150-153 | Mixed full/symmetric addition commutes, subtraction undoes it, the swapped difference is the opposite, and symmetrizing a mixed sum adds the symmetric operand to the symmetric part. |
| RankTwoMixed.AddFullSkewProperties | src/math/tensors.h:154-157 | The same for full/skew; adding a skew tensor leaves the symmetric part unchanged. |
| RankTwoMixed.ContractFullSymAgrees | src/math/tensors.h:138 | A full tensor contracted with a symmetric one equals the Mandel contraction of its symmetric part, in either order. |
| RankTwoMixed.ContractFullSkewAgrees | src/math/tensors.h:139 | A full tensor contracted with a skew one equals the axial contraction of its skew part, in either order. |
| RankTwoMixed.ContractAddLeft | src/math/tensors.h:137 | `contract` distributes over a sum in its first argument. |
| RankTwoMixed.SymSkewOrthogonal | src/math/tensors.h:207 | A symmetric and a skew tensor contract to zero, in either order. |
| RankTwoMixed.DotSymTranspose | src/math/tensors.h:163-164 | Symmetric times full, transposed, is the transposed full times symmetric. |
| RankTwoMixed.DotSkewTranspose | src/math/tensors.h:165-166 | Skew times full, transposed, is the opposite of the transposed full times skew. |
| RankTwoFull.DotNeg | src/math/tensors.h:129-132 | Negating either factor of a matrix product negates the product. |
| RankTwoMixed.DotFullSkewApply | src/math/tensors.h:131 | A full tensor times a skew one maps x to the full tensor applied to w x x. |
| RankTwoMixed.DotSymSkewTrace | src/math/tensors.h:167-168 | The product of a symmetric and a skew tensor has zero trace, in either order. |
| RankTwoMixed.TraceDotSwap | src/math/tensors.h:129 | tr(a b) = tr(b a). |
| RankTwoMixed.DotSymSymProperties | src/math/tensors.h:201 | The symmetric product does not depend on the order of its factors; when the factors commute its embedding is exactly their matrix product. |
| RankTwoMixed.DotSymSymSymmetricPart | src/math/tensors.h:201 | For all symmetric A and B, the embedded symmetric product is (AB + BA) / 2, the symmetric part of the matrix product. |
| RankTwoMixed.DotSymSymIdentity | src/math/tensors.h:201 | `id()` is neutral for the symmetric product on either side. |
| RankTwoMixed.DotSkewSkewIsHalfCross | src/math/tensors.h:248 | The skew product of axial vectors a and b is the axial vector (a x b)/2. |
| RankTwoMixed.DotSkewSkewSwap | src/math/tensors.h:248 | Swapping the factors of the skew product gives the opposite tensor. |
| RankFourFull.FromArray | src/math/tensors.h:278 | The nested-array constructor stores a[i][j][k][l] at entry (i, j, k, l). |
| RankFourFull.NegProperties | src/math/tensors.h:282-283 | `opposite()` is scaling by -1 and an involution. |
| RankFourFull.AddSubProperties | src/math/tensors.h:312-313 | Addition commutes and subtraction undoes it. |
| RankFourFull.DivUndoesScale | src/math/tensors.h:307-309 | Dividing by a non-zero scalar undoes scaling by it. |
| RankFourFull.ApplyLinear | src/math/tensors.h:301 | The rank-4 action on rank-2 tensors is additive. |
| RankFourFull.DotAddRight | src/math/tensors.h:296 | The rank-4 product distributes over a sum on the right. |
| RankFourFull.LeftSymmetry | src/math/tensors.h:296 | For a tensor symmetric (or skew) in its second pair, every left slice is a symmetric (or skew) matrix. |
| RankFourFull.RightSymmetry | src/math/tensors.h:296 | For a tensor symmetric (or skew) in its first pair, every right slice is a symmetric (or skew) matrix. |
| RankFourFull.LeftSwap | src/math/tensors.h:296 | Swapping the first pair of a symmetric (or skew) tensor gives the same (or the opposite) slice. |
| RankFourFull.RightSwap | src/math/tensors.h:296 | Swapping the second pair of a symmetric (or skew) tensor gives the same (or the opposite) slice. |
| RankFourFull.DotSymmetricSkew | src/math/tensors.h:296-299 | A tensor symmetric in its second pair times one skew in its first pair is zero, and the same with the roles exchanged. |
| RankFourFull.ApplySymmetricSkew | src/math/tensors.h:301-303 | A tensor symmetric in its second pair kills skew rank-2 tensors, and one skew there kills symmetric ones. |
| RankFourFull.DotKeepsLeft | src/math/tensors.h:296 | A product keeps the symmetry or skewness of the left factor's first pair. |
| RankFourFull.DotKeepsRight | src/math/tensors.h:296 | A product keeps the symmetry or skewness of the right factor's second pair. |
| RankFourFull.ApplyKeepsLeft | src/math/tensors.h:301 | Applying a tensor symmetric (or skew) in its first pair gives a symmetric (or skew) matrix. |
| SymSymTensor.FromRows | src/math/tensors.h:332 | The 6x6 nested-array constructor stores row p, column q at component (p, q). |
| SymSymTensor.ToFullMinorSymmetric | src/math/tensors.h:342 | `to_full()` of a SymSym tensor is symmetric in both index pairs. |
| SymSymTensor.LeftSlice | src/math/tensors.h:342 | Each left slice of the embedding is the unscaled embedding of the matching 6x6 row. |
| SymSymTensor.RightSlice | src/math/tensors.h:342 | Each right slice of the embedding is the unscaled embedding of the matching 6x6 column. |
| SymSymTensor.FromFullToFull | src/math/tensors.h:291 | `to_sym()` of `to_full()` gives back the 6x6 components (round trip). |
| SymSymTensor.ToFullFromFull | src/math/tensors.h:342 | A tensor symmetric in both pairs survives `to_sym()` then `to_full()` unchanged. |
| SymSymTensor.ToFullAdd | src/math/tensors.h:364 | The embedding maps sums to sums. |
| SymSymTensor.ToFullSub | src/math/tensors.h:365 | The embedding maps differences to differences. |
| SymSymTensor.ToFullScale | src/math/tensors.h:359-360 | The embedding maps scalar multiples to scalar multiples. |
| SymSymTensor.ToFullNeg | src/math/tensors.h:336-337 | The embedding maps `opposite()` to the opposite. |
| SymSymTensor.DivUndoesScale | src/math/tensors.h:361 | Dividing by a non-zero scalar undoes scaling by it. |
| SymSymTensor.ApplyAgrees | src/math/tensors.h:355 | The 6x6 matrix times a Mandel vector embeds to the rank-4 action on the embedded symmetric tensor. |
| SymSymTensor.DotAgrees | src/math/tensors.h:349 | The 6x6 matrix product embeds to the rank-4 product of the embeddings. |
| SymSymTensor.ApplySkewZero | src/math/tensors.h:354 | A SymSym tensor applied to a skew tensor gives zero. |
| SymSymTensor.ApplyFullSymPart | src/math/tensors.h:353 | A SymSym tensor applied to a full tensor acts only through its symmetric part. |
| SymSymTensor.DouterFull | src/math/tensors.h:377-378 | Entry (i, j, k, l) of `douter(a, b)` is a_ij b_kl. |
| SymSymTensor.DouterApply | src/math/tensors.h:377-378 | `douter(a, b)` maps x to (b : x) a. |
| SkewSymTensor.FromRows | src/math/tensors.h:439 | The 3x6 nested-array constructor stores row p, column q at component (p, q). |
| SkewSymTensor.ToFullSymmetries | src/math/tensors.h:449 | `to_full()` of a SkewSym tensor is skew in its first pair and symmetric in its second. |
| SkewSymTensor.LeftSlice | src/math/tensors.h:449 | Each left slice is the signed embedding of the row for that axial component. |
| SkewSymTensor.RightSlice | src/math/tensors.h:449 | Each right slice is the unscaled skew embedding of the matching column. |
| SkewSymTensor.FromFullToFull | src/math/tensors.h:293 | `to_skewsym()` of `to_full()` gives back the 3x6 components. |
| SkewSymTensor.ToFullFromFull | src/math/tensors.h:449 | A tensor skew in its first pair and symmetric in its second survives the round trip unchanged. |
| SkewSymTensor.ToFullAdd | src/math/tensors.h:471 | The embedding maps sums to sums. |
| SkewSymTensor.ToFullSub | src/math/tensors.h:472 | The embedding maps differences to differences. |
| SkewSymTensor.ToFullScale | src/math/tensors.h:466-467 | The embedding maps scalar multiples to scalar multiples. |
| SkewSymTensor.ToFullNeg | src/math/tensors.h:443-444 | The embedding maps `opposite()` to the opposite. |
| SkewSymTensor.DivUndoesScale | src/math/tensors.h:468 | Dividing by a non-zero scalar undoes scaling by it. |
| SkewSymTensor.ApplySymAgrees | src/math/tensors.h:462 | The rank-4 action of the embedding on a symmetric tensor is the skew tensor computed by the 3x6 matrix. |
| SkewSymTensor.ApplySkewZero | src/math/tensors.h:461 | A SkewSym tensor applied to a skew tensor gives zero. |
| SkewSymTensor.ApplyFullSymPart | src/math/tensors.h:460 | A SkewSym tensor applied to a full tensor acts only through its symmetric part. |
| SkewSymTensor.DouterFull | src/math/tensors.h:484-485 | Entry (i, j, k, l) of `douter(w, b)` is W_ij b_kl. |
| SkewSymTensor.DouterAct | src/math/tensors.h:484-485 | `douter(w, b)` maps x to (b : x) w. |
| SymSkewTensor.FromRows | src/math/tensors.h:387 | The 6x3 nested-array constructor stores row p, column q at component (p, q). |
| SymSkewTensor.ToFullSymmetries | src/math/tensors.h:397 | `to_full()` of a SymSkew tensor is symmetric in its first pair and skew in its second. |
| SymSkewTensor.LeftSlice | src/math/tensors.h:397 | Each left slice is the scaled skew embedding of the matching row. |
| SymSkewTensor.RightSlice | src/math/tensors.h:397 | Each right slice is the signed symmetric embedding of the matching column. |
| SymSkewTensor.FromFullToFull | src/math/tensors.h:292 | `to_symskew()` of `to_full()` gives back the 6x3 components. |
| SymSkewTensor.ToFullFromFull | src/math/tensors.h:397 | A tensor symmetric in its first pair and skew in its second survives the round trip unchanged. |
| SymSkewTensor.ToFullAdd | src/math/tensors.h:419 | The embedding maps sums to sums. |
| SymSkewTensor.ToFullSub | src/math/tensors.h:420 | The embedding maps differences to differences. |
| SymSkewTensor.ToFullScale | src/math/tensors.h:414-415 | The embedding maps scalar multiples to scalar multiples. |
| SymSkewTensor.ToFullNeg | src/math/tensors.h:391-392 | The embedding maps `opposite()` to the opposite. |
| SymSkewTensor.DivUndoesScale | src/math/tensors.h:416 | Dividing by a non-zero scalar undoes scaling by it. |
| SymSkewTensor.ApplySkewAgrees | src/math/tensors.h:409 | The rank-4 action of the embedding on a skew tensor is the symmetric tensor computed by the 6x3 matrix. |
| SymSkewTensor.ApplySymZero | src/math/tensors.h:410 | A SymSkew tensor applied to a symmetric tensor gives zero. |
| SymSkewTensor.ApplyFullSkewPart | src/math/tensors.h:408 | A SymSkew tensor applied to a full tensor acts only through its skew part. |
| MixedProducts.RankFourDotKeepsRight | src/math/tensors.h:297-299 | A full tensor times a reduced one has the reduced operand's symmetry in its second pair. |
| MixedProducts.ClassDotRankFourKeepsLeft | src/math/tensors.h:348 | A reduced tensor times a full one has the reduced operand's symmetry in its first pair. |
| MixedProducts.VanishingProducts | src/math/tensors.h:404-405 | SymSym times SkewSym, SymSkew times SymSym, SymSkew times SymSkew and SkewSym times SkewSym are all zero. |
| MixedProducts.RankFourApplyParts | src/math/tensors.h:301-303 | A full tensor symmetric (or skew) in its second pair acts on a rank-2 tensor only through its symmetric (or skew) part. |
| MixedProducts.SymSymSymSkewReduces | src/math/tensors.h:350 | SymSym times SymSkew is the embedding of a SymSkew tensor, computed as a 6x6 by 6x3 matrix product. |
| MixedProducts.SymSkewSkewSymReduces | src/math/tensors.h:406 | SymSkew times SkewSym is the embedding of a SymSym tensor, computed as a 6x3 by 3x6 product of axial rows and columns. |
| MixedProducts.SkewSymSymSymReduces | src/math/tensors.h:456 | SkewSym times SymSym is the embedding of a SkewSym tensor, computed as a 3x6 by 6x6 matrix product. |
| MixedProducts.SkewSymSymSkewEntry | src/math/tensors.h:458 | Each entry of SkewSym times SymSkew is the signed contraction of a row and a column, and the product is skew in both pairs. |
| CrystalHelpers.MirroredIff | src/math/tensors.h:492-499 | A matrix is symmetric (or skew) exactly when each entry equals (or is the opposite of) its mirror. |
| CrystalHelpers.TransposeCommutator | src/math/tensors.h:492-499 | The transpose of a commutator xy - yx is the commutator of the transposes in reverse order. |
| CrystalHelpers.CommutatorSymmetricSkew | src/math/tensors.h:492-496 | The commutator of a symmetric and a skew matrix is symmetric. |
| CrystalHelpers.CommutatorSymmetricSymmetric | src/math/tensors.h:498-499 | The commutator of two symmetric matrices is skew. |
| CrystalHelpers.SymSymSkewFullSymmetries | src/math/tensors.h:492-493 | S_kmab W_ml - W_km S_mlab is symmetric in both pairs when S is SymSym and W is skew. |
| CrystalHelpers.SymSymSkewSkewSymSymExact | src/math/tensors.h:492-493 | `SymSymSkew_SkewSymSym` embeds exactly to that index formula: the SymSym result loses nothing. |
| CrystalHelpers.SymSkewSymFullSymmetries | src/math/tensors.h:495-496 | D_km S_mlab - S_kmab D_ml is symmetric in both pairs when S is SkewSym and D is symmetric. |
| CrystalHelpers.SymSkewSymSkewSymSymExact | src/math/tensors.h:495-496 | `SymSkewSym_SkewSymSym` embeds exactly to that index formula. |
| CrystalHelpers.SpecialFullSymmetries | src/math/tensors.h:498-499 | C_ijkb e_ka - C_ijal e_bl is symmetric in its first pair and skew in its second when C is SymSym and e is symmetric. |
| CrystalHelpers.SpecialSymSymSymExact | src/math/tensors.h:498-499 | `SpecialSymSymSym` embeds exactly to that index formula: the SymSkew result loses nothing. |

## Left out

- Buffer ownership (`istore`, the raw-pointer constructors that alias a caller's
  buffer, move and copy assignment, `copy_data`, `s()`, `data()`,
  `src/math/tensors.h:21-57`) is not modelled. Values are immutable, so
  aliasing has no counterpart.
- The raw-pointer and flat `std::vector<double>` constructors of every class
  are not modelled separately. A datatype value is built from its rows. The
  nested-array constructors are written out: `RankTwoFull.FromRows`,
  `RankFourFull.FromArray`, and `FromRows` of `SymSym`, `SymSkew` and
  `SkewSym`.
- The compound assignments (`+=`, `-=`, `*=`, `/=`) are not modelled
  separately. They are the functional `Add`, `Sub`, `Scale` and `Div`.
- The mutable index accessors (`operator()`) are modelled by the read
  accessors `At` and `Comp`. For the reduced classes the full entry is read
  through `ToFull`.
- The stream operators (`operator<<`) are I/O.
- Flat-buffer `operator==` and `operator!=` are not modelled: the header itself
  warns that they compare storage and not tensors. Datatype equality is
  equality of stored components.
- `Vector::norm()` and `Vector::normalize()` need a square root of a
  non-constant real, which is outside the real arithmetic used here.
- `Symmetric::skew()` is not modelled: a symmetric tensor has no skew part,
  and the header does not say what the symmetric result stands for.
- Floating point: every component is an exact real, so rounding,
  overflow and NaN are not modelled.
- `RankTwoFull.Inverse` refuses a singular matrix with `Singular`; what the
  original does on a singular matrix (a library error code or exception) is
  not part of this model.
- There is no inverse of a skew tensor, and no rank-4 inverse, in the header,
  so none is modelled.
- The rank-4 products that produce a full `RankFour` (`MixedProducts.DotSymSym`
  and the rest) are defined through the embeddings. The non-vanishing
  products between two reduced classes are shown to equal the embedding of
  a reduced matrix product (`MixedProducts.*Reduces`); SkewSym times SymSkew
  is given by its entries and its two skew symmetries
  (`MixedProducts.SkewSymSymSkewEntry`); the products with a general
  `RankFour` operand carry only symmetry-preservation lemmas.
- The Python bindings, the example drivers and the regression script that use
  the header are not part of this model.
- `RankTwoMixed.DotSymSymProperties`: the symmetric product is shown equal to
  the matrix product only when the factors commute. In general the product
  of two symmetric matrices is not symmetric, and the model keeps its
  symmetric part. `RankTwoMixed.DotSymSymSymmetricPart` states that part for
  all inputs.
