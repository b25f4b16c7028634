/** `CubeAction`: one layer turn. The ring of layer `offset`, counted from `face`, turns `angle`
    quarter turns; when that layer is the face itself its grid turns with it, and when it is the
    far layer the opposite face's grid turns the other way. */
module Actions {
  import opened Numbers
  import opened Faces
  import opened Config
  import opened Permutations
  import FaceViews
  import opened Rings
  import Rows

  datatype CubeAction = CubeAction(config: CubeConfig, face: Face, offset: int, angle: int)

  /** `invert()`: the same layer of the same cube, turned by the opposite angle. */
  function Invert(a: CubeAction): CubeAction
  {
    CubeAction(a.config, a.face, a.offset, -a.angle)
  }

  /** The standard ring of layer `offset` seen from `face`. */
  function Ring(n: nat, face: Face, offset: int): CubeRing
  {
    MakeStandard(n, face, offset)
  }

  /** The ring of a layer inside the cube addresses distinct cells of the buffer. */
  lemma RingValid(n: nat, face: Face, offset: int)
    requires 0 <= offset < n
    ensures InRange(Indices(n, Ring(n, face, offset)), 6 * n * n) && Injective(Indices(n, Ring(n, face, offset)))
  {
    StandardFrameValid(face);
    MakeValid(n, face, offset, StandardFrame(face).0, StandardFrame(face).1);
  }

  /** No cell of the ring of a layer lies on the face or on the opposite face. */
  lemma RingOff(n: nat, face: Face, offset: int)
    requires 0 <= offset < n
    ensures var idx := Indices(n, Ring(n, face, offset));
      forall t :: 0 <= t < 4 * n ==> !InBlock(n, face, idx[t]) && !InBlock(n, Opposite(face), idx[t])
  {
    StandardFrameValid(face);
    MakeValid(n, face, offset, StandardFrame(face).0, StandardFrame(face).1);
  }

  /** Cell `k` of row `m` of the ring of the layer. */
  function RingCell(n: nat, face: Face, offset: int, m: int, k: int): int
    requires 0 <= m < 4
  {
    Rows.Index(RowAt(Ring(n, face, offset), m), k)
  }

  /** A ring cell lies in the buffer, off the face and off the opposite face. */
  lemma RingCellOff(n: nat, face: Face, offset: int, m: int, k: int)
    requires 0 <= offset < n && 0 <= m < 4 && 0 <= k < n
    ensures 0 <= RingCell(n, face, offset, m, k) < 6 * n * n
    ensures !InBlock(n, face, RingCell(n, face, offset, m, k))
    ensures !InBlock(n, Opposite(face), RingCell(n, face, offset, m, k))
  {
    RingValid(n, face, offset);
    RingOff(n, face, offset);
    IndexAt(n, Ring(n, face, offset), m, k);
    var t := m * n + k;
    assert RingCell(n, face, offset, m, k) == Indices(n, Ring(n, face, offset))[t];
  }

  /** Distinct (row, place) pairs of the ring name distinct cells. */
  lemma RingCellUnique(n: nat, face: Face, offset: int, m: int, k: int, m': int, k': int)
    requires 0 <= offset < n && 0 <= m < 4 && 0 <= k < n && 0 <= m' < 4 && 0 <= k' < n
    requires RingCell(n, face, offset, m, k) == RingCell(n, face, offset, m', k')
    ensures m == m' && k == k'
  {
    var r := Ring(n, face, offset);
    RingValid(n, face, offset);
    IndexAt(n, r, m, k);
    IndexAt(n, r, m', k');
    assert Indices(n, r)[m * n + k] == Indices(n, r)[m' * n + k'];
    SlotsEqual(n, m, k, m', k');
  }

  /** A cell that `act()` leaves alone: off the ring, off the face unless the layer is the face's
      own, and off the opposite face unless the layer is the far one. */
  predicate Untouched(n: nat, face: Face, offset: int, c: int)
  {
    c !in Indices(n, Ring(n, face, offset)) &&
    !(offset == 0 && InBlock(n, face, c)) &&
    !(offset == n - 1 && InBlock(n, Opposite(face), c))
  }

  /** The cell of face `f` whose sticker a turn of the face grid by `-angle` moves into cell `c`:
      the cell the rotation by `angle` names. */
  ghost function GridSource(n: nat, f: Face, angle: int, c: int): (src: int)
    requires InBlock(n, f, c)
    ensures 0 <= src < 6 * n * n && InBlock(n, f, src)
  {
    var (x, y) := BlockPos(n, f, c);
    RotInRange(n, angle, x, y);
    CellInBlock(n, f, Rot(n, angle, x, y).0, Rot(n, angle, x, y).1);
    Cell(n, f, Rot(n, angle, x, y).0, Rot(n, angle, x, y).1)
  }

  lemma GridSourceAt(n: nat, f: Face, angle: int, x: int, y: int)
    requires 0 <= x < n && 0 <= y < n
    ensures InBlock(n, f, Cell(n, f, x, y))
    ensures GridSource(n, f, angle, Cell(n, f, x, y)) == Cell(n, f, Rot(n, angle, x, y).0, Rot(n, angle, x, y).1)
  {
    var c := Cell(n, f, x, y);
    CellInBlock(n, f, x, y);
    CellInjective(n, f, x, y, f, BlockPos(n, f, c).0, BlockPos(n, f, c).1);
  }

  /** The ring cell whose sticker a turn by `angle` moves into ring cell `c`: the cell at the same
      position of the ring turned back by `angle`. */
  ghost function RingSource(n: nat, face: Face, offset: int, angle: int, c: int): (src: int)
    requires 0 <= offset < n && c in Indices(n, Ring(n, face, offset))
    ensures 0 <= src < 6 * n * n
  {
    var r := Ring(n, face, offset);
    var t :| 0 <= t < 4 * n && Indices(n, r)[t] == c;
    RingValid(n, face, offset);
    RotateValid(n, r, Negated(angle), 6 * n * n);
    Indices(n, Rotate(r, Negated(angle)))[t]
  }

  /** The cell whose sticker `act()` moves into cell `c`: on the face of layer 0, the cell the grid
      turn by `-angle` names; on the opposite face of layer `size - 1`, the cell the turn by `angle`
      names; on the ring, the cell at the same position of the ring turned back by `angle`;
      anywhere else, `c` itself. */
  ghost function Moved(n: nat, face: Face, offset: int, angle: int, c: int): (src: int)
    requires 0 <= offset < n && 0 <= c < 6 * n * n
    ensures 0 <= src < 6 * n * n
  {
    if offset == 0 && InBlock(n, face, c) then GridSource(n, face, -angle, c)
    else if offset == n - 1 && InBlock(n, Opposite(face), c) then GridSource(n, Opposite(face), angle, c)
    else if c in Indices(n, Ring(n, face, offset)) then RingSource(n, face, offset, angle, c)
    else c
  }

  /** The buffer after `act()`: every cell takes the sticker of the cell `Moved` names. */
  ghost function Apply<T>(d: seq<T>, n: nat, face: Face, offset: int, angle: int): (e: seq<T>)
    requires |d| == 6 * n * n && 0 <= offset < n
    ensures |e| == |d|
  {
    seq(|d|, c requires 0 <= c < |d| => d[Moved(n, face, offset, angle, c)])
  }

  /** The buffer after `action.act()`. */
  ghost function ApplyAction<T>(d: seq<T>, a: CubeAction): (e: seq<T>)
    requires |d| == 6 * a.config.size * a.config.size && 0 <= a.offset < a.config.size
    ensures |e| == |d|
  {
    Apply(d, a.config.size, a.face, a.offset, a.angle)
  }

  /** On the ring, the sticker comes from the same place `angle` rows back. */
  lemma MovedRing(n: nat, face: Face, offset: int, angle: int, m: int, k: int)
    requires 0 <= offset < n && 0 <= m < 4 && 0 <= k < n
    ensures 0 <= RingCell(n, face, offset, m, k) < 6 * n * n
    ensures Moved(n, face, offset, angle, RingCell(n, face, offset, m, k))
      == RingCell(n, face, offset, Behind(m, angle), k)
  {
    var r := Ring(n, face, offset);
    var c := RingCell(n, face, offset, m, k);
    RingCellOff(n, face, offset, m, k);
    IndexAt(n, r, m, k);
    var t := m * n + k;
    RingSourceAt(n, face, offset, angle, c, t);
    IndexAt(n, Rotate(r, Negated(angle)), m, k);
    RotateBackward(r, angle, m);
  }

  /** The ring source of the cell at position `t` of the ring is position `t` of the ring turned
      back. */
  lemma RingSourceAt(n: nat, face: Face, offset: int, angle: int, c: int, t: int)
    requires 0 <= offset < n && 0 <= t < 4 * n && Indices(n, Ring(n, face, offset))[t] == c
    ensures c in Indices(n, Ring(n, face, offset))
    ensures RingSource(n, face, offset, angle, c) == Indices(n, Rotate(Ring(n, face, offset), Negated(angle)))[t]
  {
    var r := Ring(n, face, offset);
    RingValid(n, face, offset);
    RotateValid(n, r, Negated(angle), 6 * n * n);
    var u :| 0 <= u < 4 * n && Indices(n, r)[u] == c
      && RingSource(n, face, offset, angle, c) == Indices(n, Rotate(r, Negated(angle)))[u];
    assert u == t;
  }

  /** On the face of layer 0, the sticker comes from the cell the grid turn by `-angle` names. */
  lemma MovedFace(n: nat, face: Face, angle: int, x: int, y: int)
    requires 0 <= x < n && 0 <= y < n
    ensures 0 <= Cell(n, face, x, y) < 6 * n * n
    ensures Moved(n, face, 0, angle, Cell(n, face, x, y))
      == Cell(n, face, Rot(n, -angle, x, y).0, Rot(n, -angle, x, y).1)
  {
    CellInBlock(n, face, x, y);
    GridSourceAt(n, face, -angle, x, y);
  }

  /** On the opposite face of layer `size - 1`, the sticker comes from the cell the grid turn by
      `angle` names. */
  lemma MovedOpposite(n: nat, face: Face, offset: int, angle: int, x: int, y: int)
    requires offset == n - 1 && 0 <= x < n && 0 <= y < n
    ensures 0 <= Cell(n, Opposite(face), x, y) < 6 * n * n
    ensures Moved(n, face, offset, angle, Cell(n, Opposite(face), x, y))
      == Cell(n, Opposite(face), Rot(n, angle, x, y).0, Rot(n, angle, x, y).1)
  {
    var g := Opposite(face);
    var c := Cell(n, g, x, y);
    CellInBlock(n, g, x, y);
    if InBlock(n, face, c) {
      BlocksDisjoint(n, face, g, c);
    }
    GridSourceAt(n, g, angle, x, y);
  }

  /** Every cell is on the ring, on the turned face grid, on the turned opposite grid, or
      untouched. */
  lemma Classify(n: nat, face: Face, offset: int, c: int) returns (kind: int, m: int, k: int)
    requires 0 <= offset < n && 0 <= c < 6 * n * n
    ensures 0 <= kind < 4
    ensures kind == 0 ==> 0 <= m < 4 && 0 <= k < n && c == RingCell(n, face, offset, m, k)
    ensures kind == 1 ==> offset == 0 && 0 <= m < n && 0 <= k < n && c == Cell(n, face, m, k)
    ensures kind == 2 ==> offset == n - 1 && 0 <= m < n && 0 <= k < n && c == Cell(n, Opposite(face), m, k)
    ensures kind == 3 ==> Untouched(n, face, offset, c)
  {
    if offset == 0 && InBlock(n, face, c) {
      kind := 1;
      m, k := BlockPos(n, face, c).0, BlockPos(n, face, c).1;
    } else if offset == n - 1 && InBlock(n, Opposite(face), c) {
      kind := 2;
      m, k := BlockPos(n, Opposite(face), c).0, BlockPos(n, Opposite(face), c).1;
    } else if c in Indices(n, Ring(n, face, offset)) {
      var t :| 0 <= t < 4 * n && Indices(n, Ring(n, face, offset))[t] == c;
      IndexDecode(n, Ring(n, face, offset), t);
      kind, m, k := 0, t / n, t % n;
    } else {
      kind, m, k := 3, 0, 0;
    }
  }

  lemma BehindCompose(m: int, a: int, b: int, s: int)
    requires 0 <= m < 4 && s == a + b
    ensures Behind(Behind(m, b), a) == Behind(m, s)
  {
    ModAdd(a, b);
    var x := NormalizeInt(a, 4) + NormalizeInt(b, 4);
    assert NormalizeInt(a + b, 4) == if x >= 4 then x - 4 else x by {
      assert x % 4 == if x >= 4 then x - 4 else x;
    }
  }

  /** Following the turn by `b` back, then the turn by `a`, is following the turn by `a + b`. */
  lemma MovedCompose(n: nat, face: Face, offset: int, a: int, b: int, s: int, c: int)
    requires 0 <= offset < n && 0 <= c < 6 * n * n && s == a + b
    ensures Moved(n, face, offset, a, Moved(n, face, offset, b, c)) == Moved(n, face, offset, s, c)
  {
    var kind, x, y := Classify(n, face, offset, c);
    if kind == 0 {
      RingCompose(n, face, offset, a, b, s, x, y);
    } else if kind == 1 {
      FaceCompose(n, face, offset, a, b, s, x, y);
    } else if kind == 2 {
      OppositeCompose(n, face, offset, a, b, s, x, y);
    }
  }

  lemma RingCompose(n: nat, face: Face, offset: int, a: int, b: int, s: int, m: int, k: int)
    requires 0 <= offset < n && 0 <= m < 4 && 0 <= k < n && s == a + b
    ensures 0 <= RingCell(n, face, offset, m, k) < 6 * n * n
    ensures Moved(n, face, offset, a, Moved(n, face, offset, b, RingCell(n, face, offset, m, k)))
      == Moved(n, face, offset, s, RingCell(n, face, offset, m, k))
  {
    MovedRing(n, face, offset, b, m, k);
    MovedRing(n, face, offset, a, Behind(m, b), k);
    MovedRing(n, face, offset, s, m, k);
    BehindCompose(m, a, b, s);
  }

  lemma FaceCompose(n: nat, face: Face, offset: int, a: int, b: int, s: int, x: int, y: int)
    requires offset == 0 && 0 <= x < n && 0 <= y < n && s == a + b
    ensures 0 <= Cell(n, face, x, y) < 6 * n * n
    ensures Moved(n, face, offset, a, Moved(n, face, offset, b, Cell(n, face, x, y)))
      == Moved(n, face, offset, s, Cell(n, face, x, y))
  {
    MovedFace(n, face, b, x, y);
    RotInRange(n, -b, x, y);
    MovedFace(n, face, a, Rot(n, -b, x, y).0, Rot(n, -b, x, y).1);
    MovedFace(n, face, s, x, y);
    RotCompose(n, -a, -b, x, y);
    assert -a + -b == -s;
  }

  lemma OppositeCompose(n: nat, face: Face, offset: int, a: int, b: int, s: int, x: int, y: int)
    requires offset == n - 1 && 0 <= x < n && 0 <= y < n && s == a + b
    ensures 0 <= Cell(n, Opposite(face), x, y) < 6 * n * n
    ensures Moved(n, face, offset, a, Moved(n, face, offset, b, Cell(n, Opposite(face), x, y)))
      == Moved(n, face, offset, s, Cell(n, Opposite(face), x, y))
  {
    var g := Opposite(face);
    MovedOpposite(n, face, offset, b, x, y);
    RotInRange(n, b, x, y);
    var (x1, y1) := Rot(n, b, x, y);
    MovedOpposite(n, face, offset, a, x1, y1);
    MovedOpposite(n, face, offset, s, x, y);
    RotCompose(n, a, b, x, y);
    assert Moved(n, face, offset, b, Cell(n, g, x, y)) == Cell(n, g, x1, y1);
  }

  /** A turn by a multiple of four quarter turns moves no sticker. */
  lemma MovedWhole(n: nat, face: Face, offset: int, angle: int, c: int)
    requires 0 <= offset < n && 0 <= c < 6 * n * n && angle % 4 == 0
    ensures Moved(n, face, offset, angle, c) == c
  {
    var kind, x, y := Classify(n, face, offset, c);
    if kind == 0 {
      MovedRing(n, face, offset, angle, x, y);
    } else if kind == 1 {
      WholeFace(n, face, offset, angle, x, y);
    } else if kind == 2 {
      WholeOpposite(n, face, offset, angle, x, y);
    }
  }

  lemma WholeFace(n: nat, face: Face, offset: int, angle: int, x: int, y: int)
    requires offset == 0 && 0 <= x < n && 0 <= y < n && angle % 4 == 0
    ensures 0 <= Cell(n, face, x, y) < 6 * n * n
    ensures Moved(n, face, offset, angle, Cell(n, face, x, y)) == Cell(n, face, x, y)
  {
    MovedFace(n, face, angle, x, y);
    NegatedWhole(angle);
    RotWhole(n, -angle, x, y);
  }

  lemma NegatedWhole(a: int)
    requires a % 4 == 0
    ensures (-a) % 4 == 0
  {
    ModMultiple(0, -(a / 4), 4);
    assert -a == 0 + (-(a / 4)) * 4;
  }

  lemma RotWhole(n: int, k: int, x: int, y: int)
    requires k % 4 == 0
    ensures Rot(n, k, x, y) == (x, y)
  {
  }

  lemma WholeOpposite(n: nat, face: Face, offset: int, angle: int, x: int, y: int)
    requires offset == n - 1 && 0 <= x < n && 0 <= y < n && angle % 4 == 0
    ensures 0 <= Cell(n, Opposite(face), x, y) < 6 * n * n
    ensures Moved(n, face, offset, angle, Cell(n, Opposite(face), x, y)) == Cell(n, Opposite(face), x, y)
  {
    MovedOpposite(n, face, offset, angle, x, y);
    RotWhole(n, angle, x, y);
  }

  /** `act()` changes only the ring of the layer, the face when the layer is 0 and the opposite
      face when the layer is `size - 1`. */
  lemma ApplyElsewhere<T>(d: seq<T>, n: nat, face: Face, offset: int, angle: int, c: int)
    requires |d| == 6 * n * n && 0 <= offset < n && 0 <= c < |d| && Untouched(n, face, offset, c)
    ensures Apply(d, n, face, offset, angle)[c] == d[c]
  {
  }

  /** Turning a layer by `a`, then by `b`, is turning it by `a + b`. */
  lemma ApplyCompose<T>(d: seq<T>, n: nat, face: Face, offset: int, a: int, b: int, s: int)
    requires |d| == 6 * n * n && 0 <= offset < n && s == a + b
    ensures Apply(Apply(d, n, face, offset, a), n, face, offset, b) == Apply(d, n, face, offset, s)
  {
    var e := Apply(d, n, face, offset, a);
    forall c | 0 <= c < |d|
      ensures Apply(e, n, face, offset, b)[c] == Apply(d, n, face, offset, s)[c]
    {
      MovedCompose(n, face, offset, a, b, s, c);
    }
  }

  /** A turn by a multiple of four quarter turns changes nothing. */
  lemma ApplyWhole<T>(d: seq<T>, n: nat, face: Face, offset: int, angle: int)
    requires |d| == 6 * n * n && 0 <= offset < n && angle % 4 == 0
    ensures Apply(d, n, face, offset, angle) == d
  {
    forall c | 0 <= c < |d| ensures Apply(d, n, face, offset, angle)[c] == d[c] {
      MovedWhole(n, face, offset, angle, c);
    }
  }

  /** `invert()` undoes `act()` in either order, and inverting twice gives back the action. */
  lemma InvertUndoes<T>(d: seq<T>, a: CubeAction)
    requires |d| == 6 * a.config.size * a.config.size && 0 <= a.offset < a.config.size
    ensures Invert(Invert(a)) == a
    ensures ApplyAction(ApplyAction(d, a), Invert(a)) == d
    ensures ApplyAction(ApplyAction(d, Invert(a)), a) == d
  {
    var n, f, o := a.config.size, a.face, a.offset;
    var e := Apply(d, n, f, o, a.angle);
    var e' := Apply(d, n, f, o, -a.angle);
    assert ApplyAction(d, a) == e;
    assert ApplyAction(d, Invert(a)) == e';
    assert ApplyAction(e, Invert(a)) == Apply(e, n, f, o, -a.angle);
    assert ApplyAction(e', a) == Apply(e', n, f, o, a.angle);
    ApplyCompose(d, n, f, o, a.angle, -a.angle, 0);
    ApplyWhole(d, n, f, o, 0);
    ApplyCompose(d, n, f, o, -a.angle, a.angle, 0);
  }

  /** Four quarter turns of a layer change nothing. */
  lemma FourQuarters<T>(d: seq<T>, n: nat, face: Face, offset: int)
    requires |d| == 6 * n * n && 0 <= offset < n
    ensures Apply(Apply(Apply(Apply(d, n, face, offset, 1), n, face, offset, 1), n, face, offset, 1), n, face, offset, 1) == d
  {
    ApplyCompose(d, n, face, offset, 1, 1, 2);
    ApplyCompose(d, n, face, offset, 2, 1, 3);
    ApplyCompose(d, n, face, offset, 3, 1, 4);
    ApplyWhole(d, n, face, offset, 4);
  }

  /** The list of cells `Moved` names, one per cell. */
  ghost function Sources(n: nat, face: Face, offset: int, angle: int): (s: seq<int>)
    requires 0 <= offset < n
    ensures |s| == 6 * n * n && InRange(s, 6 * n * n)
  {
    seq(6 * n * n, c requires 0 <= c < 6 * n * n => Moved(n, face, offset, angle, c))
  }

  /** The cells moved by the turn by `angle` and by the turn by `-angle` are inverse permutations. */
  lemma SourcesBijection(n: nat, face: Face, offset: int, angle: int)
    requires 0 <= offset < n
    ensures Bijection(Sources(n, face, offset, angle), Sources(n, face, offset, Negated(angle)), 6 * n * n)
  {
    var s, t := Sources(n, face, offset, angle), Sources(n, face, offset, Negated(angle));
    forall c | 0 <= c < 6 * n * n ensures t[s[c]] == c && s[t[c]] == c {
      MovedInverse(n, face, offset, angle, Negated(angle), c);
    }
  }

  lemma MovedInverse(n: nat, face: Face, offset: int, angle: int, back: int, c: int)
    requires 0 <= offset < n && 0 <= c < 6 * n * n && back == -angle
    ensures Moved(n, face, offset, back, Moved(n, face, offset, angle, c)) == c
    ensures Moved(n, face, offset, angle, Moved(n, face, offset, back, c)) == c
  {
    MovedCompose(n, face, offset, back, angle, 0, c);
    MovedCompose(n, face, offset, angle, back, 0, c);
    MovedWhole(n, face, offset, 0, c);
  }

  /** `act()` keeps the colours: the multiset of stickers is unchanged. */
  lemma ApplyKeepsColours<T>(d: seq<T>, n: nat, face: Face, offset: int, angle: int)
    requires |d| == 6 * n * n && 0 <= offset < n
    ensures multiset(Apply(d, n, face, offset, angle)) == multiset(d)
  {
    var s := Sources(n, face, offset, angle);
    SourcesBijection(n, face, offset, angle);
    assert Apply(d, n, face, offset, angle) == Gather(d, s);
    GatherBijectionMultiset(d, s, Sources(n, face, offset, Negated(angle)));
  }

  /** A fresh cube is solved again after any layer turn followed by its inverse. */
  lemma SolvedAfterInverse(a: CubeAction)
    requires 0 <= a.offset < a.config.size
    ensures IsSolvedData(a.config.size, ApplyAction(ApplyAction(SolvedData(a.config.size), a), Invert(a)))
  {
    InvertUndoes(SolvedData(a.config.size), a);
    SolvedDataIsSolved(a.config.size);
  }

  // The steps `act()` takes, written with the views it uses.

  /** `ring.rotate(angle).setValues(ring.getValues())`. */
  function TurnRing<T>(d: seq<T>, n: nat, r: CubeRing, angle: int): (e: seq<T>)
    requires InRange(Indices(n, r), |d|) && Injective(Indices(n, r))
    ensures |e| == |d|
  {
    RotateValid(n, r, angle, |d|);
    Write(d, n, Rotate(r, angle), Values(d, n, r))
  }

  /** `face.rotate(angle).setValues(face.getValues())` on the standard view of face `f`. */
  function TurnFace<T>(d: seq<T>, n: nat, f: Face, angle: int): (e: seq<T>)
    requires |d| == 6 * n * n
    ensures |e| == |d|
  {
    var v := FaceViews.MakeStandard(n, f);
    FaceViews.StandardValid(n, f);
    FaceViews.ValidInBuffer(n, f, v);
    FaceViews.RotateValid(n, f, v, angle);
    FaceViews.Write(d, n, FaceViews.Rotate(n, v, angle), FaceViews.Values(d, n, v))
  }

  /** The three steps of `act()`: the ring, then the face grid when `offset` is 0, then the
      opposite face's grid, turned the other way, when `offset` is `size - 1`. */
  function Steps<T>(d: seq<T>, n: nat, face: Face, offset: int, angle: int): (e: seq<T>)
    requires |d| == 6 * n * n && 0 <= offset < n
    ensures |e| == |d|
  {
    RingValid(n, face, offset);
    var d1 := TurnRing(d, n, Ring(n, face, offset), angle);
    var d2 := if offset == 0 then TurnFace(d1, n, face, angle) else d1;
    if offset == n - 1 then TurnFace(d2, n, Opposite(face), Negated(angle)) else d2
  }

  /** Turning a ring moves the stickers of row `Behind(m, angle)` into row `m`, each keeping its
      place along the row. */
  lemma TurnRingAt<T>(d: seq<T>, n: nat, r: CubeRing, angle: int, m: int, k: int)
    requires InRange(Indices(n, r), |d|) && Injective(Indices(n, r))
    requires 0 <= m < 4 && 0 <= k < n
    ensures 0 <= Rows.Index(RowAt(r, m), k) < |d|
    ensures 0 <= Rows.Index(RowAt(r, Behind(m, angle)), k) < |d|
    ensures TurnRing(d, n, r, angle)[Rows.Index(RowAt(r, m), k)]
      == d[Rows.Index(RowAt(r, Behind(m, angle)), k)]
  {
    var m0 := Behind(m, angle);
    var rot := Rotate(r, angle);
    var vals := Values(d, n, r);
    RotateValid(n, r, angle, |d|);
    IndexAt(n, r, m, k);
    IndexAt(n, r, m0, k);
    IndexAt(n, rot, m0, k);
    RotateBack(r, angle, m);
    WriteAt(d, n, rot, vals);
    assert Write(d, n, rot, vals)[Indices(n, rot)[m0 * n + k]] == vals[m0 * n + k];
  }

  /** Turning a ring changes no cell outside it. */
  lemma TurnRingOutside<T>(d: seq<T>, n: nat, r: CubeRing, angle: int, c: int)
    requires InRange(Indices(n, r), |d|) && Injective(Indices(n, r))
    requires 0 <= c < |d| && c !in Indices(n, r)
    ensures TurnRing(d, n, r, angle)[c] == d[c]
  {
    RotateValid(n, r, angle, |d|);
    RotateOutside(n, r, angle, c);
    WriteAt(d, n, Rotate(r, angle), Values(d, n, r));
  }

  /** Turning a face grid by `angle` moves into column `x`, row `y` the sticker that the turn by
      `-angle` names there. */
  lemma TurnFaceAt<T>(d: seq<T>, n: nat, f: Face, angle: int, x: int, y: int)
    requires |d| == 6 * n * n && 0 <= x < n && 0 <= y < n
    ensures 0 <= Rot(n, -angle, x, y).0 < n && 0 <= Rot(n, -angle, x, y).1 < n
    ensures 0 <= Cell(n, f, Rot(n, -angle, x, y).0, Rot(n, -angle, x, y).1) < |d|
    ensures 0 <= Cell(n, f, x, y) < |d|
    ensures TurnFace(d, n, f, angle)[Cell(n, f, x, y)]
      == d[Cell(n, f, Rot(n, -angle, x, y).0, Rot(n, -angle, x, y).1)]
  {
    var v := FaceViews.MakeStandard(n, f);
    FaceViews.StandardValid(n, f);
    FaceViews.ValidInBuffer(n, f, v);
    FaceViews.RotateValid(n, f, v, angle);
    var w := FaceViews.Rotate(n, v, angle);
    var (i, j) := Rot(n, -angle, x, y);
    RotInRange(n, -angle, x, y);
    CellInBlock(n, f, i, j);
    CellInBlock(n, f, x, y);
    RotCompose(n, angle, -angle, x, y);
    assert Rot(n, angle + -angle, x, y) == (x, y);
    FaceViews.RotateIndex(n, v, angle, i, j);
    assert FaceViews.Index(w, i, j) == Cell(n, f, x, y);
    FaceViews.WriteAt(d, n, f, w, FaceViews.Values(d, n, v));
  }

  /** Turning a face grid by `-angle` moves into column `x`, row `y` the sticker that the turn by
      `angle` names there. */
  lemma TurnFaceBackAt<T>(d: seq<T>, n: nat, f: Face, angle: int, x: int, y: int)
    requires |d| == 6 * n * n && 0 <= x < n && 0 <= y < n
    ensures 0 <= Rot(n, angle, x, y).0 < n && 0 <= Rot(n, angle, x, y).1 < n
    ensures 0 <= Cell(n, f, Rot(n, angle, x, y).0, Rot(n, angle, x, y).1) < |d|
    ensures 0 <= Cell(n, f, x, y) < |d|
    ensures TurnFace(d, n, f, Negated(angle))[Cell(n, f, x, y)]
      == d[Cell(n, f, Rot(n, angle, x, y).0, Rot(n, angle, x, y).1)]
  {
    var b := Negated(angle);
    assert -b == angle;
    TurnFaceAt(d, n, f, b, x, y);
  }

  /** Turning a face grid changes no cell outside that face's block. */
  lemma TurnFaceOutside<T>(d: seq<T>, n: nat, f: Face, angle: int, c: int)
    requires |d| == 6 * n * n && 0 <= c < |d| && !InBlock(n, f, c)
    ensures TurnFace(d, n, f, angle)[c] == d[c]
  {
    var v := FaceViews.MakeStandard(n, f);
    FaceViews.StandardValid(n, f);
    FaceViews.ValidInBuffer(n, f, v);
    FaceViews.RotateValid(n, f, v, angle);
    FaceViews.WriteAt(d, n, f, FaceViews.Rotate(n, v, angle), FaceViews.Values(d, n, v));
  }

  /** On a ring cell the steps agree with `Moved`. */
  lemma StepsRingAt<T>(d: seq<T>, n: nat, face: Face, offset: int, angle: int, m: int, k: int)
    requires |d| == 6 * n * n && 0 <= offset < n && 0 <= m < 4 && 0 <= k < n
    ensures 0 <= RingCell(n, face, offset, m, k) < |d|
    ensures 0 <= RingCell(n, face, offset, Behind(m, angle), k) < |d|
    ensures Steps(d, n, face, offset, angle)[RingCell(n, face, offset, m, k)]
      == d[RingCell(n, face, offset, Behind(m, angle), k)]
  {
    var r := Ring(n, face, offset);
    var c := RingCell(n, face, offset, m, k);
    RingValid(n, face, offset);
    RingCellOff(n, face, offset, m, k);
    TurnRingAt(d, n, r, angle, m, k);
    var d1 := TurnRing(d, n, r, angle);
    var d2 := if offset == 0 then TurnFace(d1, n, face, angle) else d1;
    if offset == 0 {
      TurnFaceOutside(d1, n, face, angle, c);
    }
    if offset == n - 1 {
      TurnFaceOutside(d2, n, Opposite(face), Negated(angle), c);
    }
  }

  /** A cell of the face's block or of the opposite block is not a ring cell. */
  lemma NotInRing(n: nat, face: Face, offset: int, g: Face, c: int)
    requires 0 <= offset < n && (g == face || g == Opposite(face)) && InBlock(n, g, c)
    ensures c !in Indices(n, Ring(n, face, offset))
  {
    RingOff(n, face, offset);
  }

  /** On the face of layer 0 the steps move in the sticker the grid turn by `-angle` names. */
  lemma StepsFaceAt<T>(d: seq<T>, n: nat, face: Face, offset: int, angle: int, x: int, y: int)
    requires |d| == 6 * n * n && offset == 0 && 0 <= x < n && 0 <= y < n
    ensures 0 <= Cell(n, face, x, y) < |d|
    ensures 0 <= Rot(n, -angle, x, y).0 < n && 0 <= Rot(n, -angle, x, y).1 < n
    ensures 0 <= Cell(n, face, Rot(n, -angle, x, y).0, Rot(n, -angle, x, y).1) < |d|
    ensures Steps(d, n, face, offset, angle)[Cell(n, face, x, y)]
      == d[Cell(n, face, Rot(n, -angle, x, y).0, Rot(n, -angle, x, y).1)]
  {
    var r := Ring(n, face, offset);
    RingValid(n, face, offset);
    var (i, j) := Rot(n, -angle, x, y);
    RotInRange(n, -angle, x, y);
    CellInBlock(n, face, x, y);
    CellInBlock(n, face, i, j);
    NotInRing(n, face, offset, face, Cell(n, face, i, j));
    TurnRingOutside(d, n, r, angle, Cell(n, face, i, j));
    TurnFaceAt(TurnRing(d, n, r, angle), n, face, angle, x, y);
    StepsFaceLast(d, n, face, offset, angle, Cell(n, face, x, y));
  }

  /** With `offset` 0, the face grid turn is the last step to write a cell of the face's block. */
  lemma StepsFaceLast<T>(d: seq<T>, n: nat, face: Face, offset: int, angle: int, c: int)
    requires |d| == 6 * n * n && offset == 0 < n && 0 <= c < |d| && InBlock(n, face, c)
    ensures InRange(Indices(n, Ring(n, face, offset)), |d|) && Injective(Indices(n, Ring(n, face, offset)))
    ensures Steps(d, n, face, offset, angle)[c]
      == TurnFace(TurnRing(d, n, Ring(n, face, offset), angle), n, face, angle)[c]
  {
    RingValid(n, face, offset);
    if offset == n - 1 {
      var d2 := TurnFace(TurnRing(d, n, Ring(n, face, offset), angle), n, face, angle);
      assert !InBlock(n, Opposite(face), c) by {
        if InBlock(n, Opposite(face), c) {
          BlocksDisjoint(n, face, Opposite(face), c);
        }
      }
      assert TurnFace(d2, n, Opposite(face), Negated(angle))[c] == d2[c] by {
        TurnFaceOutside(d2, n, Opposite(face), Negated(angle), c);
      }
    }
  }

  /** On the opposite face of layer `size - 1` the steps move in the sticker the grid turn by
      `angle` names. */
  lemma StepsOppositeAt<T>(d: seq<T>, n: nat, face: Face, offset: int, angle: int, x: int, y: int)
    requires |d| == 6 * n * n && offset == n - 1 && 0 <= x < n && 0 <= y < n
    ensures 0 <= Cell(n, Opposite(face), x, y) < |d|
    ensures 0 <= Rot(n, angle, x, y).0 < n && 0 <= Rot(n, angle, x, y).1 < n
    ensures 0 <= Cell(n, Opposite(face), Rot(n, angle, x, y).0, Rot(n, angle, x, y).1) < |d|
    ensures Steps(d, n, face, offset, angle)[Cell(n, Opposite(face), x, y)]
      == d[Cell(n, Opposite(face), Rot(n, angle, x, y).0, Rot(n, angle, x, y).1)]
  {
    var g := Opposite(face);
    RingValid(n, face, offset);
    var (i, j) := Rot(n, angle, x, y);
    RotInRange(n, angle, x, y);
    CellInBlock(n, g, x, y);
    CellInBlock(n, g, i, j);
    BeforeOpposite(d, n, face, offset, angle, Cell(n, g, i, j));
    var d1 := TurnRing(d, n, Ring(n, face, offset), angle);
    var d2 := if offset == 0 then TurnFace(d1, n, face, angle) else d1;
    TurnFaceBackAt(d2, n, g, angle, x, y);
  }

  /** With `offset` equal to `size - 1`, the steps before the opposite grid turn leave every cell
      of the opposite block as it was. */
  lemma BeforeOpposite<T>(d: seq<T>, n: nat, face: Face, offset: int, angle: int, c: int)
    requires |d| == 6 * n * n && 0 <= offset == n - 1 && 0 <= c < |d| && InBlock(n, Opposite(face), c)
    ensures InRange(Indices(n, Ring(n, face, offset)), |d|) && Injective(Indices(n, Ring(n, face, offset)))
    ensures (if offset == 0 then TurnFace(TurnRing(d, n, Ring(n, face, offset), angle), n, face, angle)
      else TurnRing(d, n, Ring(n, face, offset), angle))[c] == d[c]
  {
    var r := Ring(n, face, offset);
    RingValid(n, face, offset);
    var d1 := TurnRing(d, n, r, angle);
    assert d1[c] == d[c] by {
      NotInRing(n, face, offset, Opposite(face), c);
      TurnRingOutside(d, n, r, angle, c);
    }
    if offset == 0 {
      assert !InBlock(n, face, c) by {
        if InBlock(n, face, c) {
          BlocksDisjoint(n, face, Opposite(face), c);
        }
      }
      assert TurnFace(d1, n, face, angle)[c] == d1[c] by {
        TurnFaceOutside(d1, n, face, angle, c);
      }
    }
  }

  /** Off the ring and the turned grids the steps change nothing. */
  lemma StepsElsewhere<T>(d: seq<T>, n: nat, face: Face, offset: int, angle: int, c: int)
    requires |d| == 6 * n * n && 0 <= offset < n && 0 <= c < |d| && Untouched(n, face, offset, c)
    ensures Steps(d, n, face, offset, angle)[c] == d[c]
  {
    var r := Ring(n, face, offset);
    RingValid(n, face, offset);
    TurnRingOutside(d, n, r, angle, c);
    var d1 := TurnRing(d, n, r, angle);
    var d2 := if offset == 0 then TurnFace(d1, n, face, angle) else d1;
    if offset == 0 {
      TurnFaceOutside(d1, n, face, angle, c);
    }
    if offset == n - 1 {
      TurnFaceOutside(d2, n, Opposite(face), Negated(angle), c);
    }
  }

  /** The steps `act()` takes move every sticker as `Moved` says. */
  lemma StepsMove<T>(d: seq<T>, n: nat, face: Face, offset: int, angle: int)
    requires |d| == 6 * n * n && 0 <= offset < n
    ensures Steps(d, n, face, offset, angle) == Apply(d, n, face, offset, angle)
  {
    forall c | 0 <= c < |d| ensures Steps(d, n, face, offset, angle)[c] == Apply(d, n, face, offset, angle)[c] {
      StepAt(d, n, face, offset, angle, c);
    }
  }

  lemma StepAt<T>(d: seq<T>, n: nat, face: Face, offset: int, angle: int, c: int)
    requires |d| == 6 * n * n && 0 <= offset < n && 0 <= c < |d|
    ensures Steps(d, n, face, offset, angle)[c] == d[Moved(n, face, offset, angle, c)]
  {
    var kind, x, y := Classify(n, face, offset, c);
    if kind == 0 {
      StepsRingAt(d, n, face, offset, angle, x, y);
      MovedRing(n, face, offset, angle, x, y);
    } else if kind == 1 {
      StepsFaceAt(d, n, face, offset, angle, x, y);
      MovedFace(n, face, angle, x, y);
    } else if kind == 2 {
      StepsOppositeAt(d, n, face, offset, angle, x, y);
      MovedOpposite(n, face, offset, angle, x, y);
    } else {
      StepsElsewhere(d, n, face, offset, angle, c);
    }
  }

  /** Turns the grid of face `f` in place, reading it through the standard view first. */
  method TurnFaceInPlace(config: CubeConfig, f: Face, angle: int)
    requires config.Valid()
    modifies config.data
    ensures config.data[..] == TurnFace(old(config.data[..]), config.size, f, angle)
  {
    var n := config.size;
    var v := FaceViews.MakeStandard(n, f);
    FaceViews.StandardValid(n, f);
    FaceViews.ValidInBuffer(n, f, v);
    FaceViews.RotateValid(n, f, v, angle);
    var values := FaceViews.GetValues(config, v);
    FaceViews.SetValues(config, FaceViews.Rotate(n, v, angle), values);
  }

  /** `act()`: turns the layer's ring in place, then the face grids the layer contains. */
  method Act(a: CubeAction)
    requires a.config.Valid() && 0 <= a.offset < a.config.size
    modifies a.config.data
    ensures a.config.data[..] == ApplyAction(old(a.config.data[..]), a)
  {
    var config := a.config;
    var n := config.size;
    ghost var d := config.data[..];
    RingValid(n, a.face, a.offset);
    var ring := MakeStandard(n, a.face, a.offset);
    var values := GetValues(config, ring);
    RotateValid(n, ring, a.angle, config.data.Length);
    SetValues(config, Rotate(ring, a.angle), values);
    if a.offset == 0 {
      TurnFaceInPlace(config, a.face, a.angle);
    }
    if a.offset == n - 1 {
      TurnFaceInPlace(config, Opposite(a.face), Negated(a.angle));
    }
    StepsMove(d, n, a.face, a.offset, a.angle);
  }
}
