/** The handedness of a relabelling, as the determinant of the frame its right, top and front
    faces span: an independent reference for `isInverse()` (src/model/orientation.ts). */
module Handedness {
  import opened Faces
  import opened Orientations

  /** A vector of integer coordinates x, y and z. */
  datatype Vec = Vec(x: int, y: int, z: int)

  /** The unit vector pointing at a face: Left and Right along x, Bottom and Top along y, Back
      and Front along z, the negative face of each pair pointing backwards. */
  function Unit(f: Face): Vec
  {
    match f
    case 0 => Vec(-1, 0, 0)
    case 1 => Vec(1, 0, 0)
    case 2 => Vec(0, -1, 0)
    case 3 => Vec(0, 1, 0)
    case 4 => Vec(0, 0, -1)
    case _ => Vec(0, 0, 1)
  }

  /** The product `x * y * z` of three entries of a matrix of unit vectors, each -1, 0 or 1: zero
      when one of them is, otherwise negative exactly for an odd number of negative factors. */
  function UnitProduct(x: int, y: int, z: int): int
  {
    if x == 0 || y == 0 || z == 0 then 0
    else if (x < 0) == (y < 0) then (if z < 0 then -1 else 1)
    else if z < 0 then 1 else -1
  }

  lemma UnitProductIsProduct(x: int, y: int, z: int)
    requires -1 <= x <= 1 && -1 <= y <= 1 && -1 <= z <= 1
    ensures UnitProduct(x, y, z) == x * y * z
  {
  }

  /** The determinant of the matrix whose columns point at the faces `a`, `b` and `c`, by the
      Leibniz formula: one signed product per permutation of the rows. */
  function Det3(a: Face, b: Face, c: Face): int
  {
    var u, v, w := Unit(a), Unit(b), Unit(c);
    UnitProduct(u.x, v.y, w.z) - UnitProduct(u.x, v.z, w.y) - UnitProduct(u.y, v.x, w.z)
    + UnitProduct(u.y, v.z, w.x) + UnitProduct(u.z, v.x, w.y) - UnitProduct(u.z, v.y, w.x)
  }

  /** The determinant of the frame the labels' right, top and front faces span. */
  function Det(t: Labels): int
  {
    Det3(t.right, t.top, t.front)
  }

  /** The two facts about the handedness of one frame. */
  predicate Handed(t: Labels)
  {
    (Det(t) == 1 || Det(t) == -1) && (InverseLabels(t) <==> Det(t) == -1)
  }

  /** The handedness of every valid frame: the right face is one of 6, the top face one of the
      4 off its axis and the front face one of the 2 left, and each of the 48 frames has its
      determinant and its `isInverse()` evaluated by the one-line lemmas below (faces written as
      numbers: 0 Left, 1 Right, 2 Bottom, 3 Top, 4 Back, 5 Front). */
  lemma HandedFrom(right: Face, top: Face, front: Face)
    requires ValidLabels(Labels(right, top, front))
    ensures Handed(Labels(right, top, front))
  {
    match right
    case 0 => HandedLeft(top, front);
    case 1 => HandedRight(top, front);
    case 2 => HandedBottom(top, front);
    case 3 => HandedTop(top, front);
    case 4 => HandedBack(top, front);
    case 5 => HandedFront(top, front);
  }

  lemma HandedLeft(top: Face, front: Face)
    requires ValidLabels(Labels(0, top, front))
    ensures Handed(Labels(0, top, front))
  {
    match top
    case 2 =>
      if front == 4 { DetLeftBottomBack(); InverseLeftBottomBack(); }
      else { assert front == 5; DetLeftBottomFront(); InverseLeftBottomFront(); }
    case 3 =>
      if front == 4 { DetLeftTopBack(); InverseLeftTopBack(); }
      else { assert front == 5; DetLeftTopFront(); InverseLeftTopFront(); }
    case 4 =>
      if front == 2 { DetLeftBackBottom(); InverseLeftBackBottom(); }
      else { assert front == 3; DetLeftBackTop(); InverseLeftBackTop(); }
    case 5 =>
      if front == 2 { DetLeftFrontBottom(); InverseLeftFrontBottom(); }
      else { assert front == 3; DetLeftFrontTop(); InverseLeftFrontTop(); }
  }

  lemma HandedRight(top: Face, front: Face)
    requires ValidLabels(Labels(1, top, front))
    ensures Handed(Labels(1, top, front))
  {
    match top
    case 2 =>
      if front == 4 { DetRightBottomBack(); InverseRightBottomBack(); }
      else { assert front == 5; DetRightBottomFront(); InverseRightBottomFront(); }
    case 3 =>
      if front == 4 { DetRightTopBack(); InverseRightTopBack(); }
      else { assert front == 5; DetRightTopFront(); InverseRightTopFront(); }
    case 4 =>
      if front == 2 { DetRightBackBottom(); InverseRightBackBottom(); }
      else { assert front == 3; DetRightBackTop(); InverseRightBackTop(); }
    case 5 =>
      if front == 2 { DetRightFrontBottom(); InverseRightFrontBottom(); }
      else { assert front == 3; DetRightFrontTop(); InverseRightFrontTop(); }
  }

  lemma HandedBottom(top: Face, front: Face)
    requires ValidLabels(Labels(2, top, front))
    ensures Handed(Labels(2, top, front))
  {
    match top
    case 0 =>
      if front == 4 { DetBottomLeftBack(); InverseBottomLeftBack(); }
      else { assert front == 5; DetBottomLeftFront(); InverseBottomLeftFront(); }
    case 1 =>
      if front == 4 { DetBottomRightBack(); InverseBottomRightBack(); }
      else { assert front == 5; DetBottomRightFront(); InverseBottomRightFront(); }
    case 4 =>
      if front == 0 { DetBottomBackLeft(); InverseBottomBackLeft(); }
      else { assert front == 1; DetBottomBackRight(); InverseBottomBackRight(); }
    case 5 =>
      if front == 0 { DetBottomFrontLeft(); InverseBottomFrontLeft(); }
      else { assert front == 1; DetBottomFrontRight(); InverseBottomFrontRight(); }
  }

  lemma HandedTop(top: Face, front: Face)
    requires ValidLabels(Labels(3, top, front))
    ensures Handed(Labels(3, top, front))
  {
    match top
    case 0 =>
      if front == 4 { DetTopLeftBack(); InverseTopLeftBack(); }
      else { assert front == 5; DetTopLeftFront(); InverseTopLeftFront(); }
    case 1 =>
      if front == 4 { DetTopRightBack(); InverseTopRightBack(); }
      else { assert front == 5; DetTopRightFront(); InverseTopRightFront(); }
    case 4 =>
      if front == 0 { DetTopBackLeft(); InverseTopBackLeft(); }
      else { assert front == 1; DetTopBackRight(); InverseTopBackRight(); }
    case 5 =>
      if front == 0 { DetTopFrontLeft(); InverseTopFrontLeft(); }
      else { assert front == 1; DetTopFrontRight(); InverseTopFrontRight(); }
  }

  lemma HandedBack(top: Face, front: Face)
    requires ValidLabels(Labels(4, top, front))
    ensures Handed(Labels(4, top, front))
  {
    match top
    case 0 =>
      if front == 2 { DetBackLeftBottom(); InverseBackLeftBottom(); }
      else { assert front == 3; DetBackLeftTop(); InverseBackLeftTop(); }
    case 1 =>
      if front == 2 { DetBackRightBottom(); InverseBackRightBottom(); }
      else { assert front == 3; DetBackRightTop(); InverseBackRightTop(); }
    case 2 =>
      if front == 0 { DetBackBottomLeft(); InverseBackBottomLeft(); }
      else { assert front == 1; DetBackBottomRight(); InverseBackBottomRight(); }
    case 3 =>
      if front == 0 { DetBackTopLeft(); InverseBackTopLeft(); }
      else { assert front == 1; DetBackTopRight(); InverseBackTopRight(); }
  }

  lemma HandedFront(top: Face, front: Face)
    requires ValidLabels(Labels(5, top, front))
    ensures Handed(Labels(5, top, front))
  {
    match top
    case 0 =>
      if front == 2 { DetFrontLeftBottom(); InverseFrontLeftBottom(); }
      else { assert front == 3; DetFrontLeftTop(); InverseFrontLeftTop(); }
    case 1 =>
      if front == 2 { DetFrontRightBottom(); InverseFrontRightBottom(); }
      else { assert front == 3; DetFrontRightTop(); InverseFrontRightTop(); }
    case 2 =>
      if front == 0 { DetFrontBottomLeft(); InverseFrontBottomLeft(); }
      else { assert front == 1; DetFrontBottomRight(); InverseFrontBottomRight(); }
    case 3 =>
      if front == 0 { DetFrontTopLeft(); InverseFrontTopLeft(); }
      else { assert front == 1; DetFrontTopRight(); InverseFrontTopRight(); }
  }

  // The determinants of the 48 frames.

  lemma DetLeftBottomBack() ensures Det(Labels(0, 2, 4)) == -1 { }
  lemma DetLeftBottomFront() ensures Det(Labels(0, 2, 5)) == 1 { }
  lemma DetLeftTopBack() ensures Det(Labels(0, 3, 4)) == 1 { }
  lemma DetLeftTopFront() ensures Det(Labels(0, 3, 5)) == -1 { }
  lemma DetLeftBackBottom() ensures Det(Labels(0, 4, 2)) == 1 { }
  lemma DetLeftBackTop() ensures Det(Labels(0, 4, 3)) == -1 { }
  lemma DetLeftFrontBottom() ensures Det(Labels(0, 5, 2)) == -1 { }
  lemma DetLeftFrontTop() ensures Det(Labels(0, 5, 3)) == 1 { }
  lemma DetRightBottomBack() ensures Det(Labels(1, 2, 4)) == 1 { }
  lemma DetRightBottomFront() ensures Det(Labels(1, 2, 5)) == -1 { }
  lemma DetRightTopBack() ensures Det(Labels(1, 3, 4)) == -1 { }
  lemma DetRightTopFront() ensures Det(Labels(1, 3, 5)) == 1 { }
  lemma DetRightBackBottom() ensures Det(Labels(1, 4, 2)) == -1 { }
  lemma DetRightBackTop() ensures Det(Labels(1, 4, 3)) == 1 { }
  lemma DetRightFrontBottom() ensures Det(Labels(1, 5, 2)) == 1 { }
  lemma DetRightFrontTop() ensures Det(Labels(1, 5, 3)) == -1 { }
  lemma DetBottomLeftBack() ensures Det(Labels(2, 0, 4)) == 1 { }
  lemma DetBottomLeftFront() ensures Det(Labels(2, 0, 5)) == -1 { }
  lemma DetBottomRightBack() ensures Det(Labels(2, 1, 4)) == -1 { }
  lemma DetBottomRightFront() ensures Det(Labels(2, 1, 5)) == 1 { }
  lemma DetBottomBackLeft() ensures Det(Labels(2, 4, 0)) == -1 { }
  lemma DetBottomBackRight() ensures Det(Labels(2, 4, 1)) == 1 { }
  lemma DetBottomFrontLeft() ensures Det(Labels(2, 5, 0)) == 1 { }
  lemma DetBottomFrontRight() ensures Det(Labels(2, 5, 1)) == -1 { }
  lemma DetTopLeftBack() ensures Det(Labels(3, 0, 4)) == -1 { }
  lemma DetTopLeftFront() ensures Det(Labels(3, 0, 5)) == 1 { }
  lemma DetTopRightBack() ensures Det(Labels(3, 1, 4)) == 1 { }
  lemma DetTopRightFront() ensures Det(Labels(3, 1, 5)) == -1 { }
  lemma DetTopBackLeft() ensures Det(Labels(3, 4, 0)) == 1 { }
  lemma DetTopBackRight() ensures Det(Labels(3, 4, 1)) == -1 { }
  lemma DetTopFrontLeft() ensures Det(Labels(3, 5, 0)) == -1 { }
  lemma DetTopFrontRight() ensures Det(Labels(3, 5, 1)) == 1 { }
  lemma DetBackLeftBottom() ensures Det(Labels(4, 0, 2)) == -1 { }
  lemma DetBackLeftTop() ensures Det(Labels(4, 0, 3)) == 1 { }
  lemma DetBackRightBottom() ensures Det(Labels(4, 1, 2)) == 1 { }
  lemma DetBackRightTop() ensures Det(Labels(4, 1, 3)) == -1 { }
  lemma DetBackBottomLeft() ensures Det(Labels(4, 2, 0)) == 1 { }
  lemma DetBackBottomRight() ensures Det(Labels(4, 2, 1)) == -1 { }
  lemma DetBackTopLeft() ensures Det(Labels(4, 3, 0)) == -1 { }
  lemma DetBackTopRight() ensures Det(Labels(4, 3, 1)) == 1 { }
  lemma DetFrontLeftBottom() ensures Det(Labels(5, 0, 2)) == 1 { }
  lemma DetFrontLeftTop() ensures Det(Labels(5, 0, 3)) == -1 { }
  lemma DetFrontRightBottom() ensures Det(Labels(5, 1, 2)) == -1 { }
  lemma DetFrontRightTop() ensures Det(Labels(5, 1, 3)) == 1 { }
  lemma DetFrontBottomLeft() ensures Det(Labels(5, 2, 0)) == -1 { }
  lemma DetFrontBottomRight() ensures Det(Labels(5, 2, 1)) == 1 { }
  lemma DetFrontTopLeft() ensures Det(Labels(5, 3, 0)) == 1 { }
  lemma DetFrontTopRight() ensures Det(Labels(5, 3, 1)) == -1 { }

  // `isInverse()` on the 48 frames.

  lemma InverseLeftBottomBack() ensures InverseLabels(Labels(0, 2, 4)) { }
  lemma InverseLeftBottomFront() ensures !InverseLabels(Labels(0, 2, 5)) { }
  lemma InverseLeftTopBack() ensures !InverseLabels(Labels(0, 3, 4)) { }
  lemma InverseLeftTopFront() ensures InverseLabels(Labels(0, 3, 5)) { }
  lemma InverseLeftBackBottom() ensures !InverseLabels(Labels(0, 4, 2)) { }
  lemma InverseLeftBackTop() ensures InverseLabels(Labels(0, 4, 3)) { }
  lemma InverseLeftFrontBottom() ensures InverseLabels(Labels(0, 5, 2)) { }
  lemma InverseLeftFrontTop() ensures !InverseLabels(Labels(0, 5, 3)) { }
  lemma InverseRightBottomBack() ensures !InverseLabels(Labels(1, 2, 4)) { }
  lemma InverseRightBottomFront() ensures InverseLabels(Labels(1, 2, 5)) { }
  lemma InverseRightTopBack() ensures InverseLabels(Labels(1, 3, 4)) { }
  lemma InverseRightTopFront() ensures !InverseLabels(Labels(1, 3, 5)) { }
  lemma InverseRightBackBottom() ensures InverseLabels(Labels(1, 4, 2)) { }
  lemma InverseRightBackTop() ensures !InverseLabels(Labels(1, 4, 3)) { }
  lemma InverseRightFrontBottom() ensures !InverseLabels(Labels(1, 5, 2)) { }
  lemma InverseRightFrontTop() ensures InverseLabels(Labels(1, 5, 3)) { }
  lemma InverseBottomLeftBack() ensures !InverseLabels(Labels(2, 0, 4)) { }
  lemma InverseBottomLeftFront() ensures InverseLabels(Labels(2, 0, 5)) { }
  lemma InverseBottomRightBack() ensures InverseLabels(Labels(2, 1, 4)) { }
  lemma InverseBottomRightFront() ensures !InverseLabels(Labels(2, 1, 5)) { }
  lemma InverseBottomBackLeft() ensures InverseLabels(Labels(2, 4, 0)) { }
  lemma InverseBottomBackRight() ensures !InverseLabels(Labels(2, 4, 1)) { }
  lemma InverseBottomFrontLeft() ensures !InverseLabels(Labels(2, 5, 0)) { }
  lemma InverseBottomFrontRight() ensures InverseLabels(Labels(2, 5, 1)) { }
  lemma InverseTopLeftBack() ensures InverseLabels(Labels(3, 0, 4)) { }
  lemma InverseTopLeftFront() ensures !InverseLabels(Labels(3, 0, 5)) { }
  lemma InverseTopRightBack() ensures !InverseLabels(Labels(3, 1, 4)) { }
  lemma InverseTopRightFront() ensures InverseLabels(Labels(3, 1, 5)) { }
  lemma InverseTopBackLeft() ensures !InverseLabels(Labels(3, 4, 0)) { }
  lemma InverseTopBackRight() ensures InverseLabels(Labels(3, 4, 1)) { }
  lemma InverseTopFrontLeft() ensures InverseLabels(Labels(3, 5, 0)) { }
  lemma InverseTopFrontRight() ensures !InverseLabels(Labels(3, 5, 1)) { }
  lemma InverseBackLeftBottom() ensures InverseLabels(Labels(4, 0, 2)) { }
  lemma InverseBackLeftTop() ensures !InverseLabels(Labels(4, 0, 3)) { }
  lemma InverseBackRightBottom() ensures !InverseLabels(Labels(4, 1, 2)) { }
  lemma InverseBackRightTop() ensures InverseLabels(Labels(4, 1, 3)) { }
  lemma InverseBackBottomLeft() ensures !InverseLabels(Labels(4, 2, 0)) { }
  lemma InverseBackBottomRight() ensures InverseLabels(Labels(4, 2, 1)) { }
  lemma InverseBackTopLeft() ensures InverseLabels(Labels(4, 3, 0)) { }
  lemma InverseBackTopRight() ensures !InverseLabels(Labels(4, 3, 1)) { }
  lemma InverseFrontLeftBottom() ensures !InverseLabels(Labels(5, 0, 2)) { }
  lemma InverseFrontLeftTop() ensures InverseLabels(Labels(5, 0, 3)) { }
  lemma InverseFrontRightBottom() ensures InverseLabels(Labels(5, 1, 2)) { }
  lemma InverseFrontRightTop() ensures !InverseLabels(Labels(5, 1, 3)) { }
  lemma InverseFrontBottomLeft() ensures InverseLabels(Labels(5, 2, 0)) { }
  lemma InverseFrontBottomRight() ensures !InverseLabels(Labels(5, 2, 1)) { }
  lemma InverseFrontTopLeft() ensures !InverseLabels(Labels(5, 3, 0)) { }
  lemma InverseFrontTopRight() ensures InverseLabels(Labels(5, 3, 1)) { }

  /** `isInverse()` holds exactly for the left-handed frames, those of determinant -1, and every
      valid frame has determinant 1 or -1. */
  lemma InverseIsLeftHanded(o: CubeOrientation)
    requires ValidOrientation(o)
    ensures Det(LabelsOf(o)) == 1 || Det(LabelsOf(o)) == -1
    ensures IsInverse(o) <==> Det(LabelsOf(o)) == -1
  {
    HandedFrom(o.right, o.top, o.front);
  }

  /** A turn of the view keeps the determinant: rotations are proper. */
  lemma RotateKeepsDet(o: CubeOrientation, face: Face, angle: int)
    requires ValidOrientation(o)
    ensures Det(LabelsOf(Rotate(o, face, angle))) == Det(LabelsOf(o))
  {
    RotateHandedness(o, face, angle);
    InverseIsLeftHanded(o);
    InverseIsLeftHanded(Rotate(o, face, angle));
  }

  /** The mirrored relabelling negates the determinant. */
  lemma MirrorNegatesDet(o: CubeOrientation)
    requires ValidOrientation(o)
    ensures Det(LabelsOf(Reorient(o, Front, Top, Right))) == -Det(LabelsOf(o))
  {
    MirrorHandedness(o);
    InverseIsLeftHanded(o);
    InverseIsLeftHanded(Reorient(o, Front, Top, Right));
  }
}
