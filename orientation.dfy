/** A view of the cube with its faces relabelled: `right`, `top` and `front` say which physical
    faces play the roles of Right, Top and Front. The relabelling is immutable; every derived
    orientation shares the same cube (src/model/orientation.ts). */
module Orientations {
  import opened Numbers
  import opened Faces
  import opened Config
  import Rows
  import FaceViews
  import Rings
  import Actions
  import Permutations

  datatype CubeOrientation = CubeOrientation(config: CubeConfig, right: Face, top: Face, front: Face)

  /** A relabelling on its own: the faces playing Right, Top and Front. */
  datatype Labels = Labels(right: Face, top: Face, front: Face)

  function LabelsOf(o: CubeOrientation): Labels
  {
    Labels(o.right, o.top, o.front)
  }

  /** `new CubeOrientation(config)`: the default labels, every face playing its own role. */
  function Default(config: CubeConfig): (o: CubeOrientation)
    ensures forall f: Face :: MapFace(o, f) == f
  {
    CubeOrientation(config, Right, Top, Front)
  }

  /** The three labelled faces lie on three different axes. */
  predicate ValidLabels(t: Labels)
  {
    AxisOf(t.right) != AxisOf(t.top) && AxisOf(t.top) != AxisOf(t.front) && AxisOf(t.right) != AxisOf(t.front)
  }

  predicate ValidOrientation(o: CubeOrientation)
  {
    ValidLabels(LabelsOf(o))
  }

  /** The face table of `mapFace`: a negative face is the opposite of its positive partner's
      image. */
  function Map(t: Labels, face: Face): Face
  {
    match face
    case 0 => Opposite(t.right)
    case 1 => t.right
    case 2 => Opposite(t.top)
    case 3 => t.top
    case 4 => Opposite(t.front)
    case _ => t.front
  }

  /** `mapFace(face)`: the physical face playing the role of `face`. */
  function MapFace(o: CubeOrientation, face: Face): Face
  {
    Map(LabelsOf(o), face)
  }

  /** `reorient(right, top, front)`: the relabelling given in this orientation's own labels, on
      the same cube. */
  function Reorient(o: CubeOrientation, right: Face, top: Face, front: Face): (r: CubeOrientation)
    ensures r.config == o.config
  {
    CubeOrientation(o.config, MapFace(o, right), MapFace(o, top), MapFace(o, front))
  }

  /** The half turn about an axis (`face & Face.Axis`). */
  function HalfTurn(o: CubeOrientation, axis: int): CubeOrientation
  {
    if axis == AxisX then Reorient(o, Right, Bottom, Back)
    else if axis == AxisY then Reorient(o, Left, Top, Back)
    else Reorient(o, Left, Bottom, Front)
  }

  /** The quarter turn that brings the view round as a move of `face` by one quarter would. */
  function QuarterTurn(o: CubeOrientation, face: Face): CubeOrientation
  {
    match face
    case 0 => Reorient(o, Right, Front, Bottom)
    case 1 => Reorient(o, Right, Back, Top)
    case 2 => Reorient(o, Back, Top, Right)
    case 3 => Reorient(o, Front, Top, Left)
    case 4 => Reorient(o, Top, Left, Front)
    case _ => Reorient(o, Bottom, Right, Front)
  }

  /** `rotate(face, angle)`: the angle taken modulo 4; no turn is the orientation itself, a half
      turn depends only on the axis, and three quarters is one quarter about the opposite face. */
  function Rotate(o: CubeOrientation, face: Face, angle: int): (r: CubeOrientation)
    ensures r.config == o.config
  {
    var a := NormalizeInt(angle, 4);
    if a == 0 then o
    else if a == 2 then HalfTurn(o, AxisOf(face))
    else QuarterTurn(o, if a == 3 then Opposite(face) else face)
  }

  /** Whether labels form a left-handed frame. The axes are "in order" when top's axis follows
      right's, and the parity is that of the sign bits (`(right ^ top ^ front) & Face.Positive`). */
  predicate InverseLabels(t: Labels)
  {
    var axisInOrder := AxisOf(t.top) == NextAxis(AxisOf(t.right));
    var axisInverted := !OddSigns(t.right, t.top, t.front);
    axisInOrder == axisInverted
  }

  /** `(axis + 2) % 6`: the axis after `axis` in the cycle X, Y, Z. */
  function NextAxis(axis: int): int
  {
    if axis == AxisZ then AxisX else axis + 2
  }

  /** Whether an odd number of the three faces are positive: bit 0 of `a ^ b ^ c`. */
  predicate OddSigns(a: Face, b: Face, c: Face)
  {
    ((SignOf(a) == 1) != (SignOf(b) == 1)) != (SignOf(c) == 1)
  }

  /** `isInverse()` as the source computes it, on the bits of the faces:
      `((right & Axis) + 2) % 6 == (top & Axis)` compared with `((right ^ top ^ front) & Positive) == 0`. */
  lemma InverseBits(t: Labels)
    ensures InverseLabels(t) <==>
      ((((t.right as bv8) & 6) as int + 2) % 6 == ((t.top as bv8) & 6) as int)
      == ((t.right as bv8 ^ t.top as bv8 ^ t.front as bv8) & 1 == 0)
  {
    AxisOrderBits(t.right, t.top);
    SignParity(t.right, t.top, t.front);
  }

  /** The axis test: `((right & Axis) + 2) % 6 == (top & Axis)`. */
  lemma AxisOrderBits(right: Face, top: Face)
    ensures ((((right as bv8) & 6) as int + 2) % 6 == ((top as bv8) & 6) as int)
        == (AxisOf(top) == NextAxis(AxisOf(right)))
  {
    BitEncoding(right);
    BitEncoding(top);
    NextAxisMod(right);
  }

  /** The axis after a face's axis, as `(axis + 2) % 6`. */
  lemma NextAxisMod(f: Face)
    ensures NextAxis(AxisOf(f)) == (AxisOf(f) + 2) % 6
  {
  }

  /** An even number of positive faces is an even bit 0 of their exclusive or. */
  lemma SignParity(a: Face, b: Face, c: Face)
    ensures !OddSigns(a, b, c) <==> ((a as bv8 ^ b as bv8 ^ c as bv8) & 1) == 0
  {
    SignBit(a);
    SignBit(b);
    SignBit(c);
    XorBit(a as bv8, b as bv8, c as bv8);
  }

  /** The sign of a face is its bit 0. */
  lemma SignBit(f: Face)
    ensures (SignOf(f) == 1) == ((f as bv8) & 1 == 1)
  {
    match f
    case 0 => case 1 => case 2 => case 3 => case 4 => case 5 =>
  }

  /** Bit 0 of an exclusive or is the exclusive or of the bits 0. */
  lemma XorBit(x: bv8, y: bv8, z: bv8)
    ensures ((x ^ y ^ z) & 1 == 1) == (((x & 1 == 1) != (y & 1 == 1)) != (z & 1 == 1))
  {
  }

  /** `isInverse()`: whether this orientation's labels form a left-handed frame. */
  predicate IsInverse(o: CubeOrientation)
  {
    InverseLabels(LabelsOf(o))
  }

  /** `getAction(face, offset, angle)`: the move of the physical face playing the role of `face`;
      in a left-handed frame a turn in the labelled direction is the opposite physical turn. */
  function GetAction(o: CubeOrientation, face: Face, offset: int, angle: int): (a: Actions.CubeAction)
    ensures a.config == o.config && a.face == MapFace(o, face) && a.offset == offset
    ensures a.angle == if IsInverse(o) then -angle else angle
  {
    Actions.CubeAction(o.config, MapFace(o, face), offset, if IsInverse(o) then -angle else angle)
  }

  /** `getRow(along, from, iFace, i)`: a row named in this orientation's labels. */
  function GetRow(o: CubeOrientation, along: Face, from: Face, iFace: Face, i: int): Rows.CubeRow
  {
    Rows.Make(o.config.size, MapFace(o, along), MapFace(o, from), MapFace(o, iFace), i)
  }

  /** `getFace(face, iFrom, jFrom)`: a face view named in this orientation's labels. */
  function GetFace(o: CubeOrientation, face: Face, iFrom: Face, jFrom: Face): FaceViews.CubeFace
  {
    FaceViews.Make(o.config.size, MapFace(o, face), MapFace(o, iFrom), MapFace(o, jFrom))
  }

  /** `getStandardFace(face)`: the labelled face with the reference faces of its standard frame. */
  function GetStandardFace(o: CubeOrientation, face: Face): FaceViews.CubeFace
  {
    GetFace(o, face, Rings.StandardFrame(face).0, Rings.StandardFrame(face).1)
  }

  /** `getRing(face, offset, iFrom, jFrom)`: a ring named in this orientation's labels; the depth
      is not relabelled. */
  function GetRing(o: CubeOrientation, face: Face, offset: int, iFrom: Face, jFrom: Face): Rings.CubeRing
  {
    Rings.Make(o.config.size, MapFace(o, face), offset, MapFace(o, iFrom), MapFace(o, jFrom))
  }

  /** `getStandardRing(face, offset)`. */
  function GetStandardRing(o: CubeOrientation, face: Face, offset: int): Rings.CubeRing
  {
    GetRing(o, face, offset, Rings.StandardFrame(face).0, Rings.StandardFrame(face).1)
  }

  /** `clone()`: the same labels on a copy of the cube. */
  method Clone(o: CubeOrientation) returns (c: CubeOrientation)
    ensures fresh(c.config) && fresh(c.config.data)
    ensures c.config.size == o.config.size && c.config.data[..] == o.config.data[..]
    ensures c.right == o.right && c.top == o.top && c.front == o.front
  {
    var config := o.config.Clone();
    c := CubeOrientation(config, o.right, o.top, o.front);
  }

  // Properties of the relabelling.

  /** A negative face maps to the opposite of its positive partner's image. */
  lemma MapOpposite(t: Labels, face: Face)
    ensures Map(t, Opposite(face)) == Opposite(Map(t, face))
  {
    OppositeInvolution(Map(t, face));
  }

  /** Under valid labels two faces map to faces on different axes exactly when they lie on
      different axes themselves. */
  lemma MapAxes(t: Labels, f: Face, g: Face)
    requires ValidLabels(t)
    ensures AxisOf(Map(t, f)) == AxisOf(Map(t, g)) <==> AxisOf(f) == AxisOf(g)
  {
  }

  /** Under valid labels different faces map to different faces. */
  lemma MapInjective(t: Labels, f: Face, g: Face)
    requires ValidLabels(t) && f != g
    ensures Map(t, f) != Map(t, g)
  {
    MapAxes(t, f, g);
    if AxisOf(f) == AxisOf(g) {
      SameAxis(f, g);
      MapOpposite(t, f);
    }
  }

  /** Under valid labels every face is the image of some face. */
  lemma MapOnto(t: Labels, f: Face) returns (g: Face)
    requires ValidLabels(t)
    ensures Map(t, g) == f
  {
    var base := if AxisOf(t.right) == AxisOf(f) then 0 else if AxisOf(t.top) == AxisOf(f) then 2 else 4;
    var image := Map(t, base + 1);
    SameAxis(image, f);
    if image == f {
      g := base + 1;
    } else {
      g := base;
    }
  }

  /** The labels of relabelling by `s`, then by `t` given in the labels of `s`. */
  function Then(s: Labels, t: Labels): Labels
  {
    Labels(Map(s, t.right), Map(s, t.top), Map(s, t.front))
  }

  /** Mapping through composed labels is mapping twice. */
  lemma ThenMap(s: Labels, t: Labels, x: Face)
    ensures Map(Then(s, t), x) == Map(s, Map(t, x))
  {
    match x
    case 0 => MapOpposite(s, t.right);
    case 2 => MapOpposite(s, t.top);
    case 4 => MapOpposite(s, t.front);
    case _ =>
  }

  /** Composition of relabellings is associative. */
  lemma ThenAssociative(a: Labels, b: Labels, c: Labels)
    ensures Then(Then(a, b), c) == Then(a, Then(b, c))
  {
    ThenMap(a, b, c.right);
    ThenMap(a, b, c.top);
    ThenMap(a, b, c.front);
  }

  /** `o.reorient(r, t, f).mapFace(x) == o.mapFace(d.mapFace(x))` for the labels `d = (r, t, f)`,
      on the same cube. */
  lemma ReorientMap(o: CubeOrientation, right: Face, top: Face, front: Face, x: Face)
    ensures Reorient(o, right, top, front).config == o.config
    ensures MapFace(Reorient(o, right, top, front), x) == MapFace(o, Map(Labels(right, top, front), x))
  {
    ThenMap(LabelsOf(o), Labels(right, top, front), x);
  }

  /** Valid labels composed with valid labels are valid. */
  lemma ThenValid(s: Labels, t: Labels)
    requires ValidLabels(s) && ValidLabels(t)
    ensures ValidLabels(Then(s, t))
  {
    MapAxes(s, t.right, t.top);
    MapAxes(s, t.top, t.front);
    MapAxes(s, t.right, t.front);
  }

  /** The default labels are a right-handed frame. */
  lemma DefaultNotInverse(config: CubeConfig)
    ensures ValidOrientation(Default(config)) && !IsInverse(Default(config))
  {
  }

  // Rotations.

  /** `rotate` counts the angle modulo 4: `rotate(face, -1)` is `rotate(face, 3)`. */
  lemma RotateNormalizes(o: CubeOrientation, face: Face, angle: int)
    ensures Rotate(o, face, angle) == Rotate(o, face, NormalizeInt(angle, 4))
  {
    NormalizeIdempotent(angle, 4);
  }

  /** No turn gives back the orientation itself. */
  lemma RotateZero(o: CubeOrientation, face: Face)
    ensures Rotate(o, face, 0) == o
  {
    NormalizeIdentity(0, 4);
  }

  /** Two quarter turns of a face relabel exactly as its half turn does. */
  lemma RotateTwice(o: CubeOrientation, face: Face)
    ensures Rotate(Rotate(o, face, 1), face, 1) == Rotate(o, face, 2)
  {
    NormalizeIdentity(1, 4);
    NormalizeIdentity(2, 4);
    match face
    case 0 => case 1 => case 2 => case 3 => case 4 => case 5 =>
  }

  /** A half turn and a quarter turn of a face relabel as three quarter turns. */
  lemma RotateHalfThenQuarter(o: CubeOrientation, face: Face)
    ensures Rotate(Rotate(o, face, 2), face, 1) == Rotate(o, face, 3)
  {
    NormalizeIdentity(1, 4);
    NormalizeIdentity(2, 4);
    NormalizeIdentity(3, 4);
    HalfThenQuarter(o, face);
  }

  lemma HalfThenQuarter(o: CubeOrientation, face: Face)
    ensures QuarterTurn(HalfTurn(o, AxisOf(face)), face) == QuarterTurn(o, Opposite(face))
  {
    match face
    case 0 => case 1 => case 2 => case 3 => case 4 => case 5 =>
  }

  /** Four quarter turns of a face give back the orientation. */
  lemma RotateFull(o: CubeOrientation, face: Face)
    ensures Rotate(Rotate(o, face, 3), face, 1) == o
  {
    NormalizeIdentity(1, 4);
    NormalizeIdentity(3, 4);
    QuarterUndo(o, face);
  }

  lemma QuarterUndo(o: CubeOrientation, face: Face)
    ensures QuarterTurn(QuarterTurn(o, Opposite(face)), face) == o
  {
    match face
    case 0 => case 1 => case 2 => case 3 => case 4 => case 5 =>
  }

  /** One more quarter turn adds one to the angle. */
  lemma RotateStep(o: CubeOrientation, face: Face, a: int, s: int)
    requires s == a + 1
    ensures Rotate(Rotate(o, face, a), face, 1) == Rotate(o, face, s)
  {
    var x := NormalizeInt(a, 4);
    RotateNormalizes(o, face, a);
    RotateNormalizes(o, face, s);
    NormalizeSucc(a, s);
    NormalizeIdentity(0, 4);
    NormalizeIdentity(1, 4);
    if x == 1 {
      RotateTwice(o, face);
    } else if x == 2 {
      RotateHalfThenQuarter(o, face);
    } else if x == 3 {
      RotateFull(o, face);
    }
  }

  /** `rotate` about `face`, as a function of the orientation and the angle. */
  function Turner(face: Face): (CubeOrientation, int) -> CubeOrientation
  {
    (y, b) => Rotate(y, face, b)
  }

  /** No turn changes nothing, and one more quarter turn adds one to the angle. */
  lemma TurnerLaws(face: Face)
    ensures forall y :: Turner(face)(y, 0) == y
    ensures forall y, b :: Turner(face)(Turner(face)(y, b), 1) == Turner(face)(y, b + 1)
  {
    forall y
      ensures Turner(face)(y, 0) == y
    {
      RotateZero(y, face);
    }
    forall y, b
      ensures Turner(face)(Turner(face)(y, b), 1) == Turner(face)(y, b + 1)
    {
      RotateStep(y, face, b, b + 1);
    }
  }

  /** `k` more quarter turns add `k` to the angle. */
  lemma RotateAdd(o: CubeOrientation, face: Face, a: int, k: nat, s: int)
    requires s == a + k
    ensures Rotate(Rotate(o, face, a), face, k) == Rotate(o, face, s)
  {
    TurnerAdd(face, o, a, k);
    var y := Rotate(o, face, a);
    TurnerApply(face, o, a);
    TurnerApply(face, y, k);
    TurnerApply(face, o, s);
  }

  lemma TurnerAdd(face: Face, o: CubeOrientation, a: int, k: nat)
    ensures Turner(face)(Turner(face)(o, a), k) == Turner(face)(o, a + k)
  {
    var turn := Turner(face);
    TurnerLaws(face);
    StepsAdd(turn, o, turn(o, a), a, k);
  }

  lemma TurnerApply(face: Face, y: CubeOrientation, b: int)
    ensures Turner(face)(y, b) == Rotate(y, face, b)
  {
  }

  /** For any turn operation where no turn changes nothing and one more quarter adds one to the
      angle, `k` more quarters after `a` are `a + k`. */
  lemma {:induction false} StepsAdd<T>(turn: (T, int) -> T, x: T, y: T, a: int, k: nat)
    requires forall z :: turn(z, 0) == z
    requires forall z, b :: turn(turn(z, b), 1) == turn(z, b + 1)
    requires y == turn(x, a)
    ensures turn(y, k) == turn(x, a + k)
  {
    if k > 0 {
      var j := k - 1;
      StepsAdd(turn, x, y, a, j);
      assert turn(turn(y, j), 1) == turn(y, j + 1);
      assert turn(turn(x, a + j), 1) == turn(x, a + j + 1);
    }
  }

  /** `rotate` depends on the angle only modulo 4. */
  lemma RotateCongruent(o: CubeOrientation, face: Face, a: int, b: int)
    requires NormalizeInt(a, 4) == NormalizeInt(b, 4)
    ensures Rotate(o, face, a) == Rotate(o, face, b)
  {
  }

  /** Rotating by `a` and then by `b` about the same face is rotating by `a + b`. */
  lemma RotateCompose(o: CubeOrientation, face: Face, a: int, b: int)
    ensures Rotate(Rotate(o, face, a), face, b) == Rotate(o, face, a + b)
  {
    var k := NormalizeInt(b, 4);
    var s := a + k;
    NormalizeAdd(a, b, s);
    RotateCongruent(o, face, s, a + b);
    var x := Rotate(o, face, a);
    RotateNormalizes(x, face, b);
    RotateAdd(o, face, a, k, s);
  }

  /** Rotating back by the opposite angle restores the orientation. */
  lemma RotateUndo(o: CubeOrientation, face: Face, angle: int)
    ensures Rotate(Rotate(o, face, angle), face, Negated(angle)) == o
  {
    RotateCompose(o, face, angle, Negated(angle));
    NormalizeIdentity(0, 4);
  }

  /** Turning a face by `angle` is turning the opposite face by `-angle`; in particular three
      quarters are one quarter of the opposite face, and a half turn depends only on the axis. */
  lemma RotateOpposite(o: CubeOrientation, face: Face, angle: int)
    ensures Rotate(o, Opposite(face), Negated(angle)) == Rotate(o, face, angle)
  {
    Rings.NegateNormal(angle);
    OppositeInvolution(face);
  }

  // Handedness under relabelling: `isInverse()` flips with every exchange of two labels and
  // every reversal of one label.

  /** Reversing one label keeps the labels valid and flips `isInverse()`. */
  lemma InverseNegateRight(r: Face, u: Face, f: Face)
    requires ValidLabels(Labels(r, u, f))
    ensures ValidLabels(Labels(Opposite(r), u, f)) && InverseLabels(Labels(Opposite(r), u, f)) == !InverseLabels(Labels(r, u, f))
  {
  }

  lemma InverseNegateTop(r: Face, u: Face, f: Face)
    requires ValidLabels(Labels(r, u, f))
    ensures ValidLabels(Labels(r, Opposite(u), f)) && InverseLabels(Labels(r, Opposite(u), f)) == !InverseLabels(Labels(r, u, f))
  {
  }

  lemma InverseNegateFront(r: Face, u: Face, f: Face)
    requires ValidLabels(Labels(r, u, f))
    ensures ValidLabels(Labels(r, u, Opposite(f))) && InverseLabels(Labels(r, u, Opposite(f))) == !InverseLabels(Labels(r, u, f))
  {
  }

  /** Exchanging the first two labels keeps them valid and flips `isInverse()`. */
  lemma InverseSwapFirst(r: Face, u: Face, f: Face)
    requires ValidLabels(Labels(r, u, f))
    ensures ValidLabels(Labels(u, r, f)) && InverseLabels(Labels(u, r, f)) == !InverseLabels(Labels(r, u, f))
  {
  }

  /** Exchanging the last two labels keeps them valid and flips `isInverse()`. */
  lemma InverseSwapLast(r: Face, u: Face, f: Face)
    requires ValidLabels(Labels(r, u, f))
    ensures ValidLabels(Labels(r, f, u)) && InverseLabels(Labels(r, f, u)) == !InverseLabels(Labels(r, u, f))
  {
  }

  /** Exchanging the outer labels keeps them valid and flips `isInverse()`. */
  lemma InverseSwapOuter(r: Face, u: Face, f: Face)
    requires ValidLabels(Labels(r, u, f))
    ensures ValidLabels(Labels(f, u, r)) && InverseLabels(Labels(f, u, r)) == !InverseLabels(Labels(r, u, f))
  {
    InverseSwapFirst(r, u, f);
    InverseSwapLast(u, r, f);
    InverseSwapFirst(u, f, r);
  }

  /** A quarter turn of the view keeps the labels valid and their handedness. */
  lemma QuarterTurnHandedness(o: CubeOrientation, face: Face)
    requires ValidOrientation(o)
    ensures ValidOrientation(QuarterTurn(o, face)) && IsInverse(QuarterTurn(o, face)) == IsInverse(o)
  {
    var r, u, f := o.right, o.top, o.front;
    match face
    case 0 => InverseSwapLast(r, u, f); InverseNegateFront(r, f, u);
    case 1 => InverseSwapLast(r, u, f); InverseNegateTop(r, f, u);
    case 2 => InverseSwapOuter(r, u, f); InverseNegateRight(f, u, r);
    case 3 => InverseSwapOuter(r, u, f); InverseNegateFront(f, u, r);
    case 4 => InverseSwapFirst(r, u, f); InverseNegateTop(u, r, f);
    case 5 => InverseSwapFirst(r, u, f); InverseNegateRight(u, r, f);
  }

  /** A half turn of the view keeps the labels valid and their handedness. */
  lemma HalfTurnHandedness(o: CubeOrientation, face: Face)
    requires ValidOrientation(o)
    ensures ValidOrientation(HalfTurn(o, AxisOf(face))) && IsInverse(HalfTurn(o, AxisOf(face))) == IsInverse(o)
  {
    var r, u, f := o.right, o.top, o.front;
    if AxisOf(face) == AxisX {
      InverseNegateTop(r, u, f);
      InverseNegateFront(r, Opposite(u), f);
    } else if AxisOf(face) == AxisY {
      InverseNegateRight(r, u, f);
      InverseNegateFront(Opposite(r), u, f);
    } else {
      InverseNegateRight(r, u, f);
      InverseNegateTop(Opposite(r), u, f);
    }
  }

  /** `rotate` keeps the labels valid and their handedness: a turn of the whole cube is never a
      reflection. */
  lemma RotateHandedness(o: CubeOrientation, face: Face, angle: int)
    requires ValidOrientation(o)
    ensures ValidOrientation(Rotate(o, face, angle)) && IsInverse(Rotate(o, face, angle)) == IsInverse(o)
  {
    var a := NormalizeInt(angle, 4);
    if a == 2 {
      HalfTurnHandedness(o, face);
    } else if a == 3 {
      QuarterTurnHandedness(o, Opposite(face));
    } else if a != 0 {
      QuarterTurnHandedness(o, face);
    }
  }

  /** The mirrored relabelling `reorient(Front, Top, Right)` keeps the labels valid and flips
      their handedness. */
  lemma MirrorHandedness(o: CubeOrientation)
    requires ValidOrientation(o)
    ensures ValidOrientation(Reorient(o, Front, Top, Right))
    ensures IsInverse(Reorient(o, Front, Top, Right)) == !IsInverse(o)
  {
    InverseSwapOuter(o.right, o.top, o.front);
  }

  // Moves and views named through an orientation.

  /** Under the default labels `getAction` is the plain move. */
  lemma GetActionDefault(config: CubeConfig, face: Face, offset: int, angle: int)
    ensures GetAction(Default(config), face, offset, angle) == Actions.CubeAction(config, face, offset, angle)
  {
    DefaultNotInverse(config);
  }

  /** The inverse of a move named through an orientation is the move of the opposite angle. */
  lemma GetActionInvert(o: CubeOrientation, face: Face, offset: int, angle: int)
    ensures Actions.Invert(GetAction(o, face, offset, angle)) == GetAction(o, face, offset, -angle)
  {
  }

  /** A quarter turn of the view about a face leaves that face and its opposite in place. */
  lemma QuarterTurnFixes(o: CubeOrientation, face: Face)
    ensures MapFace(QuarterTurn(o, face), face) == MapFace(o, face)
    ensures MapFace(QuarterTurn(o, face), Opposite(face)) == MapFace(o, Opposite(face))
  {
    match face
    case 0 => case 1 => case 2 => case 3 => case 4 => case 5 =>
  }

  /** A half turn of the view about an axis leaves the faces on that axis in place. */
  lemma HalfTurnFixes(o: CubeOrientation, face: Face)
    ensures MapFace(HalfTurn(o, AxisOf(face)), face) == MapFace(o, face)
  {
    match face
    case 0 => case 1 => case 2 => case 3 => case 4 => case 5 =>
  }

  /** `rotate(face, angle)` leaves `face` in place. */
  lemma RotateFixes(o: CubeOrientation, face: Face, angle: int)
    ensures MapFace(Rotate(o, face, angle), face) == MapFace(o, face)
  {
    var a := NormalizeInt(angle, 4);
    if a == 2 {
      HalfTurnFixes(o, face);
    } else if a == 3 {
      QuarterTurnFixes(o, Opposite(face));
      OppositeInvolution(face);
    } else if a != 0 {
      QuarterTurnFixes(o, face);
    }
  }

  /** Turning the view about a face does not change the moves of that face. */
  lemma RotateKeepsFaceMoves(o: CubeOrientation, face: Face, angle: int, offset: int, turn: int)
    requires ValidOrientation(o)
    ensures GetAction(Rotate(o, face, angle), face, offset, turn) == GetAction(o, face, offset, turn)
  {
    RotateHandedness(o, face, angle);
    RotateFixes(o, face, angle);
  }

  /** The standard face view of a labelled face covers that face's block. */
  lemma GetStandardFaceValid(o: CubeOrientation, face: Face)
    ensures FaceViews.ValidView(o.config.size, MapFace(o, face), GetStandardFace(o, face))
  {
    var (i, j) := Rings.StandardFrame(face);
    FaceViews.MakeValid(o.config.size, MapFace(o, face), MapFace(o, i), MapFace(o, j));
  }

  /** The standard face view of a face starts at the first cell of the block's last row and
      runs forwards along rows and backwards across them. */
  lemma StandardFaceView(n: nat, face: Face)
    ensures FaceViews.Make(n, face, Rings.StandardFrame(face).0, Rings.StandardFrame(face).1)
         == FaceViews.CubeFace(n * n * face + (n * n - n), 1, -(n as int))
  {
    match face
    case 0 => case 1 => case 2 => case 3 => case 4 => case 5 =>
  }

  /** Under the default labels the standard face view is the face in buffer order with its rows
      reversed (see `ReversedRows`). */
  lemma DefaultStandardFace(config: CubeConfig, face: Face)
    ensures var n := config.size;
      GetStandardFace(Default(config), face) == FaceViews.CubeFace(n * n * face + (n * n - n), 1, -(n as int))
  {
    var (fi, fj) := Rings.StandardFrame(face);
    var d := Default(config);
    assert MapFace(d, face) == face && MapFace(d, fi) == fi && MapFace(d, fj) == fj;
    StandardFaceView(config.size, face);
  }

  /** The view of `DefaultStandardFace`: cell `(i, j)` is column `i` of row `n - 1 - j`. */
  lemma ReversedRows(n: nat, face: Face, i: int, j: int)
    ensures FaceViews.Index(FaceViews.CubeFace(n * n * face + (n * n - n), 1, -(n as int)), i, j) == Cell(n, face, i, n - 1 - j)
  {
    assert j * -(n as int) == -(j * n);
    assert (n - 1 - j) * n == n * n - n - j * n;
  }

  /** The standard ring of a labelled face under valid labels lies in range, visits no cell twice
      and stays off that face and its opposite. */
  lemma GetStandardRingValid(o: CubeOrientation, face: Face, offset: int)
    requires ValidOrientation(o) && 0 <= offset < o.config.size
    ensures var n, r := o.config.size, GetStandardRing(o, face, offset);
      var g := MapFace(o, face);
      Permutations.InRange(Rings.Indices(n, r), 6 * n * n) && Permutations.Injective(Rings.Indices(n, r)) &&
      forall t :: 0 <= t < 4 * n ==> !InBlock(n, g, Rings.Indices(n, r)[t]) && !InBlock(n, Opposite(g), Rings.Indices(n, r)[t])
  {
    var (i, j) := Rings.StandardFrame(face);
    Rings.StandardFrameValid(face);
    MapAxes(LabelsOf(o), i, face);
    MapAxes(LabelsOf(o), j, face);
    MapAxes(LabelsOf(o), i, j);
    Rings.MakeValid(o.config.size, MapFace(o, face), offset, MapFace(o, i), MapFace(o, j));
  }

  /** Under the default labels the standard ring is the ring's own standard frame. */
  lemma GetStandardRingDefault(config: CubeConfig, face: Face, offset: int)
    ensures GetStandardRing(Default(config), face, offset) == Rings.MakeStandard(config.size, face, offset)
  {
  }
}
