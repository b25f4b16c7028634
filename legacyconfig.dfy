/** The first cube model of the page (src/cube/config.ts), still reached from its entry point: a
    plain array of colours, six faces of `dim * dim` stickers, face `f` in the block starting at
    `dim * dim * f` and the sticker in column `x`, row `y` of it at offset `x + y * dim` (the same
    layout as the buffer of the solver's cube). A slice is one layer across an axis: axis 0 runs
    from face 0 to face 1, axis 1 from face 2 to face 3, axis 2 from face 4 to face 5. */
module LegacyConfig {
  import opened Numbers
  import opened Wrappers
  import opened Faces
  import opened Config
  import opened Permutations

  /** `CubeSlice(dim, axis, index)`: layer `index` across `axis` of a cube of side `dim`. */
  datatype CubeSlice = CubeSlice(dim: nat, axis: int, index: int)

  /** A slice that is a layer of the cube of side `n`. */
  predicate Fits(n: nat, s: CubeSlice)
  {
    s.dim == n && 0 <= s.index < n
  }

  predicate ValidAxis(axis: int)
  {
    axis == 0 || axis == 1 || axis == 2
  }

  // The ring of a slice.

  /** The `offset` table of `getRing`, block by block. */
  function RingOffset(n: int, axis: int, index: int, b: int): int
  {
    var pf, pr := n * n, n;
    if axis == 0 then
      (if b == 0 then pf * 2 + index
       else if b == 1 then pf * 5 + index
       else if b == 2 then pf * 4 - pr + index
       else pf * 5 - pr + index)
    else if axis == 1 then
      (if b == 0 then pf * 4 + index * pr
       else if b == 1 then pf * 1 + index
       else if b == 2 then pf * 5 + pr - 1 + index * pr
       else pf * 1 - pr + index)
    else
      (if b == 0 then pf * 0 + index * pr
       else if b == 1 then pf * 3 + index * pr
       else if b == 2 then pf * 1 + pr - 1 + index * pr
       else pf * 2 + pr - 1 + index * pr)
  }

  /** The `step` table of `getRing`, block by block. */
  function RingStep(n: int, axis: int, b: int): int
  {
    var pr := n;
    if axis == 0 then (if b < 2 then pr else -pr)
    else if axis == 1 then (if b == 0 then 1 else if b == 1 then pr else if b == 2 then -1 else -pr)
    else (if b < 2 then 1 else -1)
  }

  /** Entry `i` of block `b` of the ring. */
  function RingEntry(s: CubeSlice, b: int, i: int): int
  {
    RingOffset(s.dim, s.axis, s.index, b) + i * RingStep(s.dim, s.axis, b)
  }

  /** `getRing()`: the `4 * dim` positions of the ring around the slice, block `b` holding the
      positions `offset[b] + i * step[b]`; an axis other than 0, 1 and 2 is an error. */
  function Ring(s: CubeSlice): (r: Result<seq<int>>)
    ensures r.Failure? <==> !ValidAxis(s.axis)
    ensures r.Failure? ==> r.message == "Invalid axis"
    ensures r.Success? ==> |r.value| == 4 * s.dim
  {
    if !ValidAxis(s.axis) then Failure("Invalid axis")
    else Success(seq(4 * s.dim, t requires 0 <= t < 4 * s.dim => RingEntry(s, t / s.dim, t % s.dim)))
  }

  /** `getRing()`: fills the array block by block, `face` outer and `i` inner. */
  method GetRing(s: CubeSlice) returns (r: Result<seq<int>>)
    ensures r == Ring(s)
  {
    if !ValidAxis(s.axis) {
      return Failure("Invalid axis");
    }
    var n := s.dim;
    ghost var ring := Ring(s).value;
    var res := new int[n * 4];
    ghost var k := 0;
    for face := 0 to 4
      invariant k == face * n
      invariant forall t :: 0 <= t < k ==> res[t] == ring[t]
    {
      MulLe(face + 1, 4, n);
      ghost var base := face * n;
      for i := 0 to n
        invariant k == base + i
        invariant forall t :: 0 <= t < k ==> res[t] == ring[t]
      {
        RingSlot(s, face, i);
        res[face * n + i] := RingEntry(s, face, i);
        k := k + 1;
      }
    }
    assert res[..] == ring;
    r := Success(res[..]);
  }

  /** Position `b * dim + i` of the ring is entry `i` of block `b`. */
  lemma RingSlot(s: CubeSlice, b: int, i: int)
    requires ValidAxis(s.axis) && 0 <= b < 4 && 0 <= i < s.dim
    ensures 0 <= b * s.dim + i < 4 * s.dim
    ensures Ring(s).value[b * s.dim + i] == RingEntry(s, b, i)
  {
    MulLe(b + 1, 4, s.dim);
    DivMod(s.dim, i, b);
  }

  /** The face that block `b` of the ring around `axis` lies on. */
  function RingFace(axis: int, b: int): Face
  {
    if axis == 0 then (if b == 0 then 2 else if b == 1 then 5 else if b == 2 then 3 else 4)
    else if axis == 1 then (if b == 0 then 4 else if b == 1 then 1 else if b == 2 then 5 else 0)
    else (if b == 0 then 0 else if b == 1 then 3 else if b == 2 then 1 else 2)
  }

  /** Column and row, on its face, of entry `i` of block `b`. */
  function RingPos(n: int, axis: int, index: int, b: int, i: int): (int, int)
  {
    if axis == 0 then (if b < 2 then (index, i) else (index, n - 1 - i))
    else if axis == 1 then
      (if b == 0 then (i, index) else if b == 1 then (index, i)
       else if b == 2 then (n - 1 - i, index) else (index, n - 1 - i))
    else (if b < 2 then (i, index) else (n - 1 - i, index))
  }

  lemma EntryAxis0(n: nat, index: int, b: int, i: int)
    requires 0 <= b < 4
    ensures RingEntry(CubeSlice(n, 0, index), b, i)
      == Cell(n, RingFace(0, b), RingPos(n, 0, index, b, i).0, RingPos(n, 0, index, b, i).1)
  {
    if b == 2 {
      assert (n - 1 - i) * n == n * n - n - i * n;
    } else if b == 3 {
      assert (n - 1 - i) * n == n * n - n - i * n;
    }
  }

  lemma EntryAxis1(n: nat, index: int, b: int, i: int)
    requires 0 <= b < 4
    ensures RingEntry(CubeSlice(n, 1, index), b, i)
      == Cell(n, RingFace(1, b), RingPos(n, 1, index, b, i).0, RingPos(n, 1, index, b, i).1)
  {
    if b == 3 {
      assert (n - 1 - i) * n == n * n - n - i * n;
    }
  }

  lemma EntryAxis2(n: nat, index: int, b: int, i: int)
    requires 0 <= b < 4
    ensures RingEntry(CubeSlice(n, 2, index), b, i)
      == Cell(n, RingFace(2, b), RingPos(n, 2, index, b, i).0, RingPos(n, 2, index, b, i).1)
  {
  }

  /** Entry `i` of block `b` is the sticker at `RingPos` on `RingFace`, inside the buffer. */
  lemma EntryCell(s: CubeSlice, b: int, i: int)
    requires ValidAxis(s.axis) && Fits(s.dim, s) && 0 <= b < 4 && 0 <= i < s.dim
    ensures var (x, y) := RingPos(s.dim, s.axis, s.index, b, i);
      0 <= x < s.dim && 0 <= y < s.dim && RingEntry(s, b, i) == Cell(s.dim, RingFace(s.axis, b), x, y)
    ensures InBlock(s.dim, RingFace(s.axis, b), RingEntry(s, b, i))
    ensures 0 <= RingEntry(s, b, i) < 6 * s.dim * s.dim
  {
    if s.axis == 0 {
      EntryAxis0(s.dim, s.index, b, i);
    } else if s.axis == 1 {
      EntryAxis1(s.dim, s.index, b, i);
    } else {
      EntryAxis2(s.dim, s.index, b, i);
    }
    var (x, y) := RingPos(s.dim, s.axis, s.index, b, i);
    CellInBlock(s.dim, RingFace(s.axis, b), x, y);
  }

  /** Entry `t` of the ring is entry `t % dim` of block `t / dim`. */
  lemma RingAt(s: CubeSlice, t: int)
    requires ValidAxis(s.axis) && Fits(s.dim, s) && 0 <= t < 4 * s.dim
    ensures 0 <= t / s.dim < 4 && 0 <= t % s.dim < s.dim
    ensures Ring(s).value[t] == RingEntry(s, t / s.dim, t % s.dim)
    ensures t == t / s.dim * s.dim + t % s.dim
  {
    var n := s.dim;
    assert t == t / n * n + t % n;
    if t / n >= 4 { MulLe(4, t / n, n); }
  }

  /** The four blocks of the ring lie on the four faces off the slice's axis, one block each. */
  lemma RingFaces(axis: int, b: int, c: int)
    requires ValidAxis(axis) && 0 <= b < 4 && 0 <= c < 4
    ensures RingFace(axis, b) != 2 * axis && RingFace(axis, b) != 2 * axis + 1
    ensures RingFace(axis, b) == RingFace(axis, c) ==> b == c
  {
  }

  /** For a layer of the cube, every ring position is a sticker of the buffer. */
  lemma RingInRange(s: CubeSlice)
    requires ValidAxis(s.axis) && Fits(s.dim, s)
    ensures InRange(Ring(s).value, 6 * s.dim * s.dim)
  {
    forall t | 0 <= t < 4 * s.dim
      ensures 0 <= Ring(s).value[t] < 6 * s.dim * s.dim
    {
      RingAt(s, t);
      EntryCell(s, t / s.dim, t % s.dim);
    }
  }

  /** For a layer of the cube, the ring names `4 * dim` distinct stickers. */
  lemma RingInjective(s: CubeSlice)
    requires ValidAxis(s.axis) && Fits(s.dim, s)
    ensures Injective(Ring(s).value)
  {
    var r := Ring(s).value;
    forall t, u | 0 <= t < |r| && 0 <= u < |r| && t != u
      ensures r[t] != r[u]
    {
      if r[t] == r[u] {
        RingDistinct(s, t, u);
      }
    }
  }

  lemma RingDistinct(s: CubeSlice, t: int, u: int)
    requires ValidAxis(s.axis) && Fits(s.dim, s) && 0 <= t < 4 * s.dim && 0 <= u < 4 * s.dim
    requires Ring(s).value[t] == Ring(s).value[u]
    ensures t == u
  {
    var n := s.dim;
    RingAt(s, t);
    RingAt(s, u);
    var b, i, c, j := t / n, t % n, u / n, u % n;
    EntryCell(s, b, i);
    EntryCell(s, c, j);
    var (x, y) := RingPos(n, s.axis, s.index, b, i);
    var (p, q) := RingPos(n, s.axis, s.index, c, j);
    CellInjective(n, RingFace(s.axis, b), x, y, RingFace(s.axis, c), p, q);
    RingFaces(s.axis, b, c);
  }

  /** No ring position lies on the two faces the slice's axis runs between. */
  lemma RingOffAxis(s: CubeSlice, t: int)
    requires ValidAxis(s.axis) && Fits(s.dim, s) && 0 <= t < 4 * s.dim
    ensures !InBlock(s.dim, 2 * s.axis, Ring(s).value[t])
    ensures !InBlock(s.dim, 2 * s.axis + 1, Ring(s).value[t])
  {
    var n := s.dim;
    RingAt(s, t);
    var b := t / n;
    EntryCell(s, b, t % n);
    RingFaces(s.axis, b, b);
    var c := Ring(s).value[t];
    if InBlock(n, 2 * s.axis, c) { BlocksDisjoint(n, 2 * s.axis, RingFace(s.axis, b), c); }
    if InBlock(n, 2 * s.axis + 1, c) { BlocksDisjoint(n, 2 * s.axis + 1, RingFace(s.axis, b), c); }
  }

  // Where a sticker sits along an axis.

  /** `indexOnAxis(index, axis)`: the layer across `axis` that buffer position `index` belongs
      to: 0 on the axis's first face, `dim - 1` on its last face, otherwise the column or row of
      the sticker that runs along the axis. */
  function IndexOnAxis(n: int, index: int, axis: int): (r: int)
    requires n > 0
    ensures 0 <= index ==> 0 <= r < n
  {
    var face := index / (n * n);
    if face == axis * 2 then 0
    else if face == axis * 2 + 1 then n - 1
    else if axis == 0 || (axis == 1 && face < 2) then JsRem(index, n)
    else JsRem(index / n, n)
  }

  /** The face, column and row of a sticker can be read back from its position. */
  lemma CellCoordinates(n: int, f: int, x: int, y: int)
    requires 0 <= x < n && 0 <= y < n && 0 <= f
    ensures Cell(n, f, x, y) / (n * n) == f
    ensures Cell(n, f, x, y) % n == x && Cell(n, f, x, y) / n % n == y
  {
    CellAsSlot(n, f, x, y);
    DivMod(n, x, f * n + y);
    DivMod(n, y, f);
    CellBounds(n, f, x, y);
    assert Cell(n, f, x, y) == f * (n * n) + (x + y * n);
    DivMod(n * n, x + y * n, f);
  }

  /** Off the axis's two faces, the layer of a sticker is its column or its row. */
  lemma IndexOnAxisCell(n: int, axis: int, f: Face, x: int, y: int)
    requires ValidAxis(axis) && f != 2 * axis && f != 2 * axis + 1 && 0 <= x < n && 0 <= y < n
    ensures IndexOnAxis(n, Cell(n, f, x, y), axis) == if axis == 0 || (axis == 1 && f < 2) then x else y
  {
    CellCoordinates(n, f, x, y);
    CellBounds(n, f, x, y);
    MulLe(0, f, n * n);
    var c := Cell(n, f, x, y);
    assert c >= 0;
    assert c / n >= 0 by { DivMod(n, x, f * n + y); CellAsSlot(n, f, x, y); }
  }

  /** Every sticker of a slice's ring is on that slice: `indexOnAxis` of it is the slice's index. */
  lemma RingOnAxis(s: CubeSlice, t: int)
    requires ValidAxis(s.axis) && Fits(s.dim, s) && 0 <= t < 4 * s.dim
    ensures IndexOnAxis(s.dim, Ring(s).value[t], s.axis) == s.index
  {
    var n := s.dim;
    RingAt(s, t);
    var b := t / n;
    EntryCell(s, b, t % n);
    var (x, y) := RingPos(n, s.axis, s.index, b, t % n);
    RingFaces(s.axis, b, b);
    IndexOnAxisCell(n, s.axis, RingFace(s.axis, b), x, y);
  }

  /** The stickers of the axis's first face are on layer 0 and those of its last face on layer
      `dim - 1`: the layers whose moves also turn those faces. */
  lemma EndsOnAxis(n: int, axis: int, x: int, y: int)
    requires ValidAxis(axis) && 0 <= x < n && 0 <= y < n
    ensures IndexOnAxis(n, Cell(n, 2 * axis, x, y), axis) == 0
    ensures IndexOnAxis(n, Cell(n, 2 * axis + 1, x, y), axis) == n - 1
  {
    CellCoordinates(n, 2 * axis, x, y);
    CellCoordinates(n, 2 * axis + 1, x, y);
  }

  // The colours of a fresh cube.

  /** The buffer of `new CubeConfig(dim)`: every sticker of face `i` has colour `i`. */
  function Fresh(n: nat): (d: seq<int>)
    ensures |d| == 6 * n * n
  {
    seq(6 * n * n, c requires 0 <= c < 6 * n * n => c / (n * n))
  }

  /** In a fresh cube every face is one colour, the face's own. */
  lemma FreshFaces(n: nat, f: Face, x: int, y: int)
    requires 0 <= x < n && 0 <= y < n
    ensures 0 <= Cell(n, f, x, y) < 6 * n * n && Fresh(n)[Cell(n, f, x, y)] == f
  {
    CellInBlock(n, f, x, y);
    CellCoordinates(n, f, x, y);
  }

  // Turning a slice.

  /** `values` read round the ring `shift` places on: entry `i` becomes `values[(i + shift) % len]`. */
  function Shifted(values: seq<int>, shift: int): (r: seq<int>)
    requires |values| > 0
    ensures |r| == |values|
  {
    seq(|values|, i requires 0 <= i < |values| => values[(i + shift) % |values|])
  }

  /** Reading round the ring by `s1`, then by `s2`, with `s1 + s2` a whole turn, reads in place. */
  lemma ShiftedTwice(values: seq<int>, s1: int, s2: int)
    requires |values| > 0 && s1 + s2 == |values|
    ensures Shifted(Shifted(values, s1), s2) == values
  {
    var len := |values|;
    forall i | 0 <= i < len
      ensures Shifted(Shifted(values, s1), s2)[i] == values[i]
    {
      var j := (i + s2) % len;
      assert Shifted(Shifted(values, s1), s2)[i] == Shifted(values, s1)[j];
      assert Shifted(values, s1)[j] == values[(j + s1) % len];
      ShiftBack(i, s1, s2, len);
    }
    assert Shifted(Shifted(values, s1), s2) == values;
  }

  lemma ShiftBack(i: int, s1: int, s2: int, len: int)
    requires 0 <= i < len && s1 + s2 == len
    ensures ((i + s2) % len + s1) % len == i
  {
    var q := (i + s2) / len;
    assert (i + s2) % len == i + s2 - q * len;
    assert (i + s2) % len + s1 == i + (1 - q) * len;
    ModMultiple(i, 1 - q, len);
    DivMod(len, i, 0);
  }

  /** The sticker that `adjustFace` moves to position `c` of face `f`'s block. */
  function FaceSource(d: seq<int>, n: nat, f: Face, k: int, c: int): int
    requires |d| == 6 * n * n && InBlock(n, f, c)
  {
    var (x, y) := BlockPos(n, f, c);
    var (u, v) := Rot(n, k, x, y);
    RotInRange(n, k, x, y);
    CellInBlock(n, f, u, v);
    d[Cell(n, f, u, v)]
  }

  /** The buffer after `adjustFace` turns face `f` by `k` quarter turns: the sticker at column
      `x`, row `y` takes the colour from `Rot(n, k, x, y)`, and nothing off the face changes. */
  function FaceTurn(d: seq<int>, n: nat, f: Face, k: int): (e: seq<int>)
    requires |d| == 6 * n * n
    ensures |e| == |d|
  {
    seq(|d|, c requires 0 <= c < |d| => if InBlock(n, f, c) then FaceSource(d, n, f, k, c) else d[c])
  }

  /** The colour at column `x`, row `y` of face `f` (0 off the buffer). */
  function At(d: seq<int>, n: int, f: int, x: int, y: int): int
  {
    var c := Cell(n, f, x, y);
    if 0 <= c < |d| then d[c] else 0
  }

  lemma FaceTurnAt(d: seq<int>, n: nat, f: Face, k: int, x: int, y: int)
    requires |d| == 6 * n * n && 0 <= x < n && 0 <= y < n
    ensures At(FaceTurn(d, n, f, k), n, f, x, y) == At(d, n, f, Rot(n, k, x, y).0, Rot(n, k, x, y).1)
  {
    CellInBlock(n, f, x, y);
    RotInRange(n, k, x, y);
    var (u, v) := Rot(n, k, x, y);
    CellInBlock(n, f, u, v);
    var c := Cell(n, f, x, y);
    var (p, q) := BlockPos(n, f, c);
    CellInjective(n, f, x, y, f, p, q);
  }

  /** Whether a move of slice `s` turns face `g` as well: the axis's first face for layer 0, its
      last face for layer `dim - 1`. */
  predicate Turned(s: CubeSlice, g: int)
  {
    (g == 2 * s.axis && s.index == 0) || (g == 2 * s.axis + 1 && s.index == s.dim - 1)
  }

  /** The face turns of a move of slice `s`, first face first. */
  function EndTurns(d: seq<int>, s: CubeSlice, k: int): (e: seq<int>)
    requires ValidAxis(s.axis) && |d| == 6 * s.dim * s.dim
    ensures |e| == |d|
  {
    var n := s.dim;
    var d1 := if s.index == 0 then FaceTurn(d, n, 2 * s.axis, k) else d;
    if s.index == n - 1 then FaceTurn(d1, n, 2 * s.axis + 1, k) else d1
  }

  /** Off the turned faces the face turns change nothing. */
  lemma EndTurnsElsewhere(d: seq<int>, s: CubeSlice, k: int, c: int)
    requires ValidAxis(s.axis) && |d| == 6 * s.dim * s.dim && 0 <= c < |d|
    requires !(Turned(s, 2 * s.axis) && InBlock(s.dim, 2 * s.axis, c))
    requires !(Turned(s, 2 * s.axis + 1) && InBlock(s.dim, 2 * s.axis + 1, c))
    ensures EndTurns(d, s, k)[c] == d[c]
  {
  }

  /** On a turned face the sticker at column `x`, row `y` comes from `Rot(n, k, x, y)`. */
  lemma EndTurnsAt(d: seq<int>, s: CubeSlice, k: int, g: Face, x: int, y: int)
    requires ValidAxis(s.axis) && |d| == 6 * s.dim * s.dim && Turned(s, g)
    requires 0 <= x < s.dim && 0 <= y < s.dim
    ensures At(EndTurns(d, s, k), s.dim, g, x, y) == At(d, s.dim, g, Rot(s.dim, k, x, y).0, Rot(s.dim, k, x, y).1)
  {
    var n, a := s.dim, 2 * s.axis;
    var (u, v) := Rot(n, k, x, y);
    RotInRange(n, k, x, y);
    CellInBlock(n, g, x, y);
    CellInBlock(n, g, u, v);
    var c, e := Cell(n, g, x, y), Cell(n, g, u, v);
    var d1 := if s.index == 0 then FaceTurn(d, n, a, k) else d;
    if g == a {
      FaceTurnAt(d, n, g, k, x, y);
      if InBlock(n, a + 1, c) { BlocksDisjoint(n, a, a + 1, c); }
    } else {
      FaceTurnAt(d1, n, g, k, x, y);
      if InBlock(n, a, e) { BlocksDisjoint(n, a, a + 1, e); }
    }
  }

  /** `ring.map(i => data[i])`: the colours round the ring of slice `s`, in ring order. */
  function RingColours(d: seq<int>, s: CubeSlice): (r: seq<int>)
    requires ValidAxis(s.axis) && Fits(s.dim, s) && |d| == 6 * s.dim * s.dim
    ensures |r| == 4 * s.dim
  {
    RingInRange(s);
    Gather(d, Ring(s).value)
  }

  /** The ring turn of a move: the ring's colours read `shift` places on. */
  function RingTurn(d: seq<int>, s: CubeSlice, shift: int): (e: seq<int>)
    requires ValidAxis(s.axis) && Fits(s.dim, s) && |d| == 6 * s.dim * s.dim
    ensures |e| == |d|
  {
    RingInRange(s);
    Scatter(d, Ring(s).value, Shifted(RingColours(d, s), shift))
  }

  /** The ring turn, written with the ring itself rather than through `RingColours`. */
  lemma RingTurnIs(d: seq<int>, s: CubeSlice, shift: int)
    requires ValidAxis(s.axis) && Fits(s.dim, s) && |d| == 6 * s.dim * s.dim
    ensures InRange(Ring(s).value, |d|)
    ensures RingTurn(d, s, shift) == Scatter(d, Ring(s).value, Shifted(Gather(d, Ring(s).value), shift))
  {
    RingInRange(s);
  }

  /** The ring moved `b` blocks on, then the face turns by `k` quarter turns. */
  function Move(d: seq<int>, s: CubeSlice, b: nat, k: int): (e: seq<int>)
    requires ValidAxis(s.axis) && Fits(s.dim, s) && |d| == 6 * s.dim * s.dim
    ensures |e| == |d|
  {
    EndTurns(RingTurn(d, s, b * s.dim), s, k)
  }

  /** The buffer after `adjust(s, angle)`, or the error it throws. The angle is normalised to
      `a` in `0 .. 3` first, and 0 changes nothing; otherwise the ring moves `4 - a` blocks on and,
      for an outer layer, the end face turns, by `a` quarter turns except across axis 1, where it
      turns by `4 - a`. */
  function Adjusted(d: seq<int>, s: CubeSlice, angle: int): (r: Result<seq<int>>)
    requires Fits(s.dim, s) && |d| == 6 * s.dim * s.dim
    ensures r.Success? ==> |r.value| == |d|
  {
    var a := NormalizeInt(angle, 4);
    if a == 0 then Success(d)
    else match Ring(s)
      case Failure(m) => Failure(m)
      case Success(_) =>
        var b := 4 - a;
        Success(Move(d, s, b, if s.axis != 1 then 4 - b else b))
  }

  /** A turn by a number of quarter turns that is not whole, on a valid axis, is a move: the
      ring `4 - a` blocks on and the end faces `a` quarter turns (`4 - a` about the y axis). */
  lemma AdjustedMove(d: seq<int>, s: CubeSlice, angle: int, b: int, k: int)
    requires Fits(s.dim, s) && |d| == 6 * s.dim * s.dim && ValidAxis(s.axis)
    requires NormalizeInt(angle, 4) != 0 && b == 4 - NormalizeInt(angle, 4)
    requires k == if s.axis != 1 then 4 - b else b
    ensures 0 <= b && Adjusted(d, s, angle) == Success(Move(d, s, b, k))
  {
  }

  /** A turn by a whole number of turns leaves the cube as it was, whatever the axis. */
  lemma AdjustWhole(d: seq<int>, s: CubeSlice, angle: int)
    requires Fits(s.dim, s) && |d| == 6 * s.dim * s.dim && angle % 4 == 0
    ensures Adjusted(d, s, angle) == Success(d)
  {
  }

  /** An invalid axis fails exactly when the angle is not a whole number of turns. */
  lemma AdjustFails(d: seq<int>, s: CubeSlice, angle: int)
    requires Fits(s.dim, s) && |d| == 6 * s.dim * s.dim
    ensures Adjusted(d, s, angle).Failure? <==> angle % 4 != 0 && !ValidAxis(s.axis)
    ensures Adjusted(d, s, angle).Failure? ==> Adjusted(d, s, angle).message == "Invalid axis"
  {
  }

  /** The opposite angle normalises to the complementary quarter count. */
  lemma NormalizeNegated(angle: int)
    ensures NormalizeInt(angle, 4) == 0 <==> NormalizeInt(-angle, 4) == 0
    ensures NormalizeInt(angle, 4) != 0 ==> NormalizeInt(-angle, 4) == 4 - NormalizeInt(angle, 4)
  {
    var r := angle % 4;
    assert angle == angle / 4 * 4 + r;
    if r == 0 {
      DivMod(4, 0, -(angle / 4));
    } else {
      DivMod(4, 4 - r, -(angle / 4) - 1);
    }
  }

  /** Off the ring the ring turn changes nothing. */
  lemma RingTurnElsewhere(d: seq<int>, s: CubeSlice, shift: int, c: int)
    requires ValidAxis(s.axis) && Fits(s.dim, s) && |d| == 6 * s.dim * s.dim && 0 <= c < |d|
    requires c !in Ring(s).value
    ensures RingTurn(d, s, shift)[c] == d[c]
  {
    var ring := Ring(s).value;
    RingInRange(s);
    ScatterUpToOutside(d, ring, Shifted(RingColours(d, s), shift), |ring|, c);
  }

  /** After the ring turn the ring holds its old colours read `shift` places on. */
  lemma RingTurnColours(d: seq<int>, s: CubeSlice, shift: int)
    requires ValidAxis(s.axis) && Fits(s.dim, s) && |d| == 6 * s.dim * s.dim
    ensures RingColours(RingTurn(d, s, shift), s) == Shifted(RingColours(d, s), shift)
  {
    RingInRange(s);
    RingInjective(s);
    GatherScatter(d, Ring(s).value, Shifted(RingColours(d, s), shift));
  }

  /** A move changes only the stickers of the slice's ring and of the faces it turns. */
  lemma AdjustTouches(d: seq<int>, s: CubeSlice, angle: int, c: int)
    requires Fits(s.dim, s) && |d| == 6 * s.dim * s.dim && 0 <= c < |d|
    requires Adjusted(d, s, angle).Success?
    requires ValidAxis(s.axis) ==> c !in Ring(s).value
    requires !(Turned(s, 2 * s.axis) && InBlock(s.dim, 2 * s.axis, c))
    requires !(Turned(s, 2 * s.axis + 1) && InBlock(s.dim, 2 * s.axis + 1, c))
    ensures Adjusted(d, s, angle).value[c] == d[c]
  {
    if NormalizeInt(angle, 4) != 0 {
      var b := 4 - NormalizeInt(angle, 4);
      RingTurnElsewhere(d, s, b * s.dim, c);
      EndTurnsElsewhere(RingTurn(d, s, b * s.dim), s, if s.axis != 1 then 4 - b else b, c);
    }
  }

  // Undoing a move.

  /** A sticker of one of the axis's faces is not on the ring. */
  lemma NotInRing(s: CubeSlice, g: int, c: int)
    requires ValidAxis(s.axis) && Fits(s.dim, s) && (g == 2 * s.axis || g == 2 * s.axis + 1)
    requires InBlock(s.dim, g, c)
    ensures c !in Ring(s).value
  {
    if c in Ring(s).value {
      var t :| 0 <= t < 4 * s.dim && Ring(s).value[t] == c;
      RingOffAxis(s, t);
    }
  }

  /** The face turns leave the ring's colours alone. */
  lemma EndTurnsKeepRing(d: seq<int>, s: CubeSlice, k: int)
    requires ValidAxis(s.axis) && Fits(s.dim, s) && |d| == 6 * s.dim * s.dim
    ensures RingColours(EndTurns(d, s, k), s) == RingColours(d, s)
  {
    RingInRange(s);
    forall t | 0 <= t < 4 * s.dim
      ensures RingColours(EndTurns(d, s, k), s)[t] == RingColours(d, s)[t]
    {
      RingOffAxis(s, t);
      EndTurnsElsewhere(d, s, k, Ring(s).value[t]);
    }
  }

  /** A move by `b1` ring blocks and `k1` face quarters, then one by `b2` and `k2`. */
  function Twice(d: seq<int>, s: CubeSlice, b1: nat, k1: int, b2: nat, k2: int): (e: seq<int>)
    requires ValidAxis(s.axis) && Fits(s.dim, s) && |d| == 6 * s.dim * s.dim
    ensures |e| == |d|
  {
    Move(Move(d, s, b1, k1), s, b2, k2)
  }

  /** The ring's colours after a move: its old colours read `b` blocks on. */
  lemma MoveColours(d: seq<int>, s: CubeSlice, b: nat, k: int)
    requires ValidAxis(s.axis) && Fits(s.dim, s) && |d| == 6 * s.dim * s.dim
    ensures RingColours(Move(d, s, b, k), s) == Shifted(RingColours(d, s), b * s.dim)
  {
    RingTurnColours(d, s, b * s.dim);
    EndTurnsKeepRing(RingTurn(d, s, b * s.dim), s, k);
  }

  /** Whole turns of the ring: every ring sticker gets its colour back. */
  lemma TwiceOnRing(d: seq<int>, s: CubeSlice, b1: nat, k1: int, b2: nat, k2: int)
    requires ValidAxis(s.axis) && Fits(s.dim, s) && |d| == 6 * s.dim * s.dim && b1 + b2 == 4
    ensures RingColours(Twice(d, s, b1, k1, b2, k2), s) == RingColours(d, s)
  {
    var n := s.dim;
    var m1 := Move(d, s, b1, k1);
    var c0, c1 := RingColours(d, s), RingColours(m1, s);
    MoveColours(d, s, b1, k1);
    MoveColours(m1, s, b2, k2);
    assert RingColours(Twice(d, s, b1, k1, b2, k2), s) == Shifted(c1, b2 * n);
    assert b1 * n + b2 * n == |c0| by { MulAdd(b1, b2, n); }
    ShiftedTwice(c0, b1 * n, b2 * n);
  }

  /** Opposite quarter turns of a face: every sticker of a turned face gets its colour back. */
  lemma TwiceOnFace(d: seq<int>, s: CubeSlice, b1: nat, k1: int, b2: nat, k2: int, g: Face, x: int, y: int)
    requires ValidAxis(s.axis) && Fits(s.dim, s) && |d| == 6 * s.dim * s.dim
    requires k1 + k2 == 4 && Turned(s, g) && 0 <= x < s.dim && 0 <= y < s.dim
    ensures At(Twice(d, s, b1, k1, b2, k2), s.dim, g, x, y) == At(d, s.dim, g, x, y)
  {
    var n := s.dim;
    var e1 := Move(d, s, b1, k1);
    var (u, v) := Rot(n, k2, x, y);
    RotInRange(n, k2, x, y);
    MoveOnFace(e1, s, b2, k2, g, x, y);
    MoveOnFace(d, s, b1, k1, g, u, v);
    RotCompose(n, k1, k2, x, y);
  }

  /** On a turned face a move turns the stickers by `k` quarters; the ring turn does not reach
      them. */
  lemma MoveOnFace(d: seq<int>, s: CubeSlice, b: nat, k: int, g: Face, x: int, y: int)
    requires ValidAxis(s.axis) && Fits(s.dim, s) && |d| == 6 * s.dim * s.dim
    requires Turned(s, g) && 0 <= x < s.dim && 0 <= y < s.dim
    ensures At(Move(d, s, b, k), s.dim, g, x, y) == At(d, s.dim, g, Rot(s.dim, k, x, y).0, Rot(s.dim, k, x, y).1)
  {
    var n := s.dim;
    var r := RingTurn(d, s, b * n);
    EndTurnsAt(r, s, k, g, x, y);
    RotInRange(n, k, x, y);
    OffRing(d, s, b * n, g, Rot(n, k, x, y).0, Rot(n, k, x, y).1);
  }

  /** The ring turn leaves the axis's faces alone. */
  lemma OffRing(d: seq<int>, s: CubeSlice, shift: int, g: Face, x: int, y: int)
    requires ValidAxis(s.axis) && Fits(s.dim, s) && |d| == 6 * s.dim * s.dim
    requires (g == 2 * s.axis || g == 2 * s.axis + 1) && 0 <= x < s.dim && 0 <= y < s.dim
    ensures At(RingTurn(d, s, shift), s.dim, g, x, y) == At(d, s.dim, g, x, y)
  {
    CellInBlock(s.dim, g, x, y);
    NotInRing(s, g, Cell(s.dim, g, x, y));
    RingTurnElsewhere(d, s, shift, Cell(s.dim, g, x, y));
  }

  /** Elsewhere nothing moves at all. */
  lemma MoveElsewhere(d: seq<int>, s: CubeSlice, b: nat, k: int, c: int)
    requires ValidAxis(s.axis) && Fits(s.dim, s) && |d| == 6 * s.dim * s.dim && 0 <= c < |d|
    requires c !in Ring(s).value
    requires !(Turned(s, 2 * s.axis) && InBlock(s.dim, 2 * s.axis, c))
    requires !(Turned(s, 2 * s.axis + 1) && InBlock(s.dim, 2 * s.axis + 1, c))
    ensures Move(d, s, b, k)[c] == d[c]
  {
    RingTurnElsewhere(d, s, b * s.dim, c);
    EndTurnsElsewhere(RingTurn(d, s, b * s.dim), s, k, c);
  }

  /** Complementary ring and face turns cancel. */
  lemma TwiceCancels(d: seq<int>, s: CubeSlice, b1: nat, k1: int, b2: nat, k2: int)
    requires ValidAxis(s.axis) && Fits(s.dim, s) && |d| == 6 * s.dim * s.dim
    requires b1 + b2 == 4 && k1 + k2 == 4
    ensures Twice(d, s, b1, k1, b2, k2) == d
  {
    var n := s.dim;
    var e := Twice(d, s, b1, k1, b2, k2);
    TwiceOnRing(d, s, b1, k1, b2, k2);
    RingInRange(s);
    forall c | 0 <= c < |d|
      ensures e[c] == d[c]
    {
      if c in Ring(s).value {
        var t :| 0 <= t < 4 * n && Ring(s).value[t] == c;
        assert RingColours(e, s)[t] == RingColours(d, s)[t];
      } else if Turned(s, 2 * s.axis) && InBlock(n, 2 * s.axis, c) {
        TwiceOnTurned(d, s, b1, k1, b2, k2, 2 * s.axis, c);
      } else if Turned(s, 2 * s.axis + 1) && InBlock(n, 2 * s.axis + 1, c) {
        TwiceOnTurned(d, s, b1, k1, b2, k2, 2 * s.axis + 1, c);
      } else {
        MoveElsewhere(d, s, b1, k1, c);
        MoveElsewhere(Move(d, s, b1, k1), s, b2, k2, c);
      }
    }
  }

  lemma TwiceOnTurned(d: seq<int>, s: CubeSlice, b1: nat, k1: int, b2: nat, k2: int, g: Face, c: int)
    requires ValidAxis(s.axis) && Fits(s.dim, s) && |d| == 6 * s.dim * s.dim && 0 <= c < |d|
    requires k1 + k2 == 4 && Turned(s, g) && InBlock(s.dim, g, c)
    ensures Twice(d, s, b1, k1, b2, k2)[c] == d[c]
  {
    var (x, y) := BlockPos(s.dim, g, c);
    CellInBlock(s.dim, g, x, y);
    TwiceOnFace(d, s, b1, k1, b2, k2, g, x, y);
  }

  /** `adjust(s, angle)` followed by `adjust(s, -angle)` gives the cube back. */
  lemma AdjustUndo(d: seq<int>, s: CubeSlice, angle: int)
    requires Fits(s.dim, s) && |d| == 6 * s.dim * s.dim && Adjusted(d, s, angle).Success?
    ensures Adjusted(Adjusted(d, s, angle).value, s, Negated(angle)) == Success(d)
  {
    NormalizeNegated(angle);
    var a := NormalizeInt(angle, 4);
    if a != 0 {
      assert ValidAxis(s.axis);
      var b1, b2 := 4 - a, a;
      var k1 := if s.axis != 1 then 4 - b1 else b1;
      var k2 := if s.axis != 1 then 4 - b2 else b2;
      AdjustedMove(d, s, angle, b1, k1);
      var e := Move(d, s, b1, k1);
      AdjustedMove(e, s, Negated(angle), b2, k2);
      assert Move(e, s, b2, k2) == Twice(d, s, b1, k1, b2, k2);
      TwiceCancels(d, s, b1, k1, b2, k2);
    }
  }

  // The buffer object.

  /** Face `f`'s turn, done up to column `i` and, in that column, up to row `j`. */
  predicate Done(n: nat, f: Face, i: int, j: int, c: int)
  {
    InBlock(n, f, c) && (BlockPos(n, f, c).0 < i || (BlockPos(n, f, c).0 == i && BlockPos(n, f, c).1 < j))
  }

  /** `e` is `d` with face `f`'s turn written up to column `i`, row `j`. */
  predicate FaceProgress(d: seq<int>, e: seq<int>, n: nat, f: Face, k: int, i: int, j: int)
    requires |d| == 6 * n * n
  {
    |e| == |d| && forall c :: 0 <= c < |d| ==> e[c] == if Done(n, f, i, j, c) then FaceTurn(d, n, f, k)[c] else d[c]
  }

  /** Writing the turned colour of column `i`, row `j` moves the progress on by one row. */
  lemma FaceStep(d: seq<int>, e: seq<int>, n: nat, f: Face, k: int, i: int, j: int)
    requires |d| == 6 * n * n && 0 <= i < n && 0 <= j < n && FaceProgress(d, e, n, f, k, i, j)
    ensures 0 <= Cell(n, f, i, j) < |d|
    ensures FaceProgress(d, e[Cell(n, f, i, j) := At(d, n, f, Rot(n, k, i, j).0, Rot(n, k, i, j).1)], n, f, k, i, j + 1)
  {
    var w := Cell(n, f, i, j);
    CellInBlock(n, f, i, j);
    FaceTurnAt(d, n, f, k, i, j);
    var (p, q) := BlockPos(n, f, w);
    CellInjective(n, f, i, j, f, p, q);
    var e' := e[w := At(d, n, f, Rot(n, k, i, j).0, Rot(n, k, i, j).1)];
    forall c | 0 <= c < |d|
      ensures e'[c] == if Done(n, f, i, j + 1, c) then FaceTurn(d, n, f, k)[c] else d[c]
    {
      if c != w && InBlock(n, f, c) {
        var (x, y) := BlockPos(n, f, c);
        assert (x, y) != (i, j);
      }
    }
  }

  /** `adjustFace`'s write of column `i`, row `j` from the copied block `values`, with the
      source coordinates `(mi, mj)` its table gives, is the next step of the turn. */
  lemma FaceWrite(d: seq<int>, e: seq<int>, values: seq<int>, n: nat, f: Face, k: int, i: int, j: int, mi: int, mj: int)
    requires |d| == 6 * n * n && 0 <= i < n && 0 <= j < n && FaceProgress(d, e, n, f, k, i, j)
    requires 0 <= n * n * f && n * n * f + n * n <= |d| && values == d[n * n * f..n * n * f + n * n]
    requires 1 <= k <= 3
    requires k == 1 ==> mi == n - j - 1 && mj == i
    requires k == 2 ==> mi == n - i - 1 && mj == n - j - 1
    requires k == 3 ==> mi == j && mj == n - i - 1
    ensures 0 <= n * n * f + i + j * n < |e| && 0 <= mi + mj * n < |values|
    ensures FaceProgress(d, e[n * n * f + i + j * n := values[mi + mj * n]], n, f, k, i, j + 1)
  {
    assert (mi, mj) == Rot(n, k, i, j);
    FaceStep(d, e, n, f, k, i, j);
    RotInRange(n, k, i, j);
    CellBounds(n, f, mi, mj);
    assert values[mi + mj * n] == At(d, n, f, mi, mj);
  }

  /** The last row of column `i` done is column `i + 1` begun. */
  lemma FaceColumn(d: seq<int>, e: seq<int>, n: nat, f: Face, k: int, i: int)
    requires |d| == 6 * n * n && FaceProgress(d, e, n, f, k, i, n)
    ensures FaceProgress(d, e, n, f, k, i + 1, 0)
  {
  }

  /** Every column done is the whole turn. */
  lemma FaceFinished(d: seq<int>, e: seq<int>, n: nat, f: Face, k: int)
    requires |d| == 6 * n * n && FaceProgress(d, e, n, f, k, n, 0)
    ensures e == FaceTurn(d, n, f, k)
  {
  }

  /** `CubeConfig`: the colour array of a cube of side `dim`. */
  class CubeConfig {
    const dim: nat
    const data: array<int>

    predicate Valid()
    {
      data.Length == 6 * dim * dim
    }

    /** `new CubeConfig(dim)`: fills face `i`'s block with colour `i`, face by face. */
    constructor (dim: nat)
      ensures this.dim == dim && Valid() && fresh(data)
      ensures data[..] == Fresh(dim)
    {
      var p := dim * dim;
      var a := new int[p * 6];
      ghost var k := 0;
      for i := 0 to 6
        invariant k == i * p
        invariant forall c :: 0 <= c < k ==> a[c] == c / p
      {
        MulLe(i + 1, 6, p);
        for j := 0 to p
          invariant k == i * p + j
          invariant forall c :: 0 <= c < k ==> a[c] == c / p
        {
          DivMod(p, j, i);
          a[i * p + j] := i;
          k := k + 1;
        }
      }
      this.dim := dim;
      data := a;
      new;
      assert data[..] == Fresh(dim);
    }

    /** `adjust(slice, angle)`: turns a layer of the cube, or fails with "Invalid axis" before
        writing anything. */
    method Adjust(slice: CubeSlice, angle: int) returns (r: Result<()>)
      requires Valid() && Fits(dim, slice)
      modifies data
      ensures Adjusted(old(data[..]), slice, angle).Success? ==>
        r.Success? && data[..] == Adjusted(old(data[..]), slice, angle).value
      ensures Adjusted(old(data[..]), slice, angle).Failure? ==>
        r == Failure(Adjusted(old(data[..]), slice, angle).message) && data[..] == old(data[..])
    {
      ghost var d0 := data[..];
      var a := JsRem(angle, 4);
      if a < 0 { a := a + 4; }
      assert a == NormalizeInt(angle, 4);
      if a == 0 {
        return Success(());
      }
      a := 4 - a;
      var ringOr := GetRing(slice);
      if ringOr.Failure? {
        return Failure(ringOr.message);
      }
      RingTurnIs(d0, slice, a * dim);
      RotateRing(ringOr.value, a * dim);
      ghost var b := a;
      if slice.axis != 1 { a := 4 - a; }
      AdjustedMove(d0, slice, angle, b, a);
      TurnEnds(slice, a);
      r := Success(());
    }

    /** The ring rotation of `adjust`: the ring's colours copied out, then written back `shift`
        places round. */
    method RotateRing(ring: seq<int>, shift: int)
      requires InRange(ring, data.Length) && |ring| > 0
      modifies data
      ensures data[..] == Scatter(old(data[..]), ring, Shifted(Gather(old(data[..]), ring), shift))
    {
      ghost var d0 := data[..];
      var values := Gather(data[..], ring);
      ghost var shifted := Shifted(values, shift);
      for i := 0 to |ring|
        invariant data[..] == ScatterUpTo(d0, ring, shifted, i)
      {
        data[ring[i]] := values[(i + shift) % |values|];
      }
    }

    /** The face rotation of `adjust`: the end faces the slice touches, turned `k` quarter turns. */
    method TurnEnds(slice: CubeSlice, k: int)
      requires Valid() && Fits(dim, slice) && ValidAxis(slice.axis) && 1 <= k <= 3
      modifies data
      ensures data[..] == EndTurns(old(data[..]), slice, k)
    {
      if slice.index == 0 {
        assert dim * dim * slice.axis * 2 == dim * dim * (2 * slice.axis);
        AdjustFace(dim * dim * slice.axis * 2, k, 2 * slice.axis);
      }
      if slice.index == dim - 1 {
        assert dim * dim * (slice.axis * 2 + 1) == dim * dim * (2 * slice.axis + 1);
        AdjustFace(dim * dim * (slice.axis * 2 + 1), k, 2 * slice.axis + 1);
      }
    }

    /** `adjustFace(offset, angle)`: turns the face whose block starts at `offset` (face `f`) by
        `angle` quarter turns, from a copy of the block taken first. */
    method AdjustFace(offset: int, angle: int, ghost f: Face)
      requires Valid() && offset == dim * dim * f && 1 <= angle <= 3
      modifies data
      ensures data[..] == FaceTurn(old(data[..]), dim, f, angle)
    {
      BlockEnd(dim, f);
      ghost var d0 := data[..];
      var values := data[offset..offset + dim * dim];
      for i := 0 to dim
        invariant FaceProgress(d0, data[..], dim, f, angle, i, 0)
      {
        for j := 0 to dim
          invariant FaceProgress(d0, data[..], dim, f, angle, i, j)
        {
          var mi, mj;
          if angle == 1 {
            mi, mj := dim - j - 1, i;
          } else if angle == 2 {
            mi, mj := dim - i - 1, dim - j - 1;
          } else {
            mi, mj := j, dim - i - 1;
          }
          ghost var before := data[..];
          FaceWrite(d0, before, values, dim, f, angle, i, j, mi, mj);
          var x, w := offset + i + j * dim, mi + mj * dim;
          data[x] := values[w];
          assert data[..] == before[x := values[w]];
        }
        FaceColumn(d0, data[..], dim, f, angle, i);
      }
      FaceFinished(d0, data[..], dim, f, angle);
    }
  }
}
