/** Fixed-shape component storage shared by all tensor classes.

    A vector and the reduced rank-2 classes store a single row of 3 or 6
    reals; the full rank-2 tensor and the reduced rank-4 classes store a
    rectangular array of rows (3x3, 6x6, 6x3, 3x6); the full rank-4 tensor
    stores a 3x3x3x3 array.
 */
module Storage {

  type Row3 = s: seq<real> | |s| == 3 witness [0.0, 0.0, 0.0]
  type Row6 = s: seq<real> | |s| == 6 witness [0.0, 0.0, 0.0, 0.0, 0.0, 0.0]

  const ZeroRow3: Row3 := [0.0, 0.0, 0.0]
  const ZeroRow6: Row6 := [0.0, 0.0, 0.0, 0.0, 0.0, 0.0]

  /** Three rows of three: a 3x3 matrix. */
  type Mat33 = s: seq<Row3> | |s| == 3 witness [ZeroRow3, ZeroRow3, ZeroRow3]
  /** Six rows of six. */
  type Mat66 = s: seq<Row6> | |s| == 6 witness seq(6, _ => ZeroRow6)
  /** Six rows of three. */
  type Mat63 = s: seq<Row3> | |s| == 6 witness seq(6, _ => ZeroRow3)
  /** Three rows of six. */
  type Mat36 = s: seq<Row6> | |s| == 3 witness [ZeroRow6, ZeroRow6, ZeroRow6]

  const ZeroMat33: Mat33 := [ZeroRow3, ZeroRow3, ZeroRow3]

  /** A 3x3 array of 3x3 matrices: a 3x3x3x3 array. */
  type Mat33Row = s: seq<Mat33> | |s| == 3 witness [ZeroMat33, ZeroMat33, ZeroMat33]
  const ZeroMat33Row: Mat33Row := [ZeroMat33, ZeroMat33, ZeroMat33]
  type Mat3333 = s: seq<Mat33Row> | |s| == 3 witness [ZeroMat33Row, ZeroMat33Row, ZeroMat33Row]
}
