/** A face seen as an `n` by `n` grid: sticker `(i, j)` at `offset + i * iStep + j * jStep`. */
module FaceViews {
  import opened Numbers
  import opened Faces
  import opened Config
  import opened Permutations

  datatype CubeFace = CubeFace(offset: int, iStep: int, jStep: int)

  /** The face `face` as seen with `i` running away from `iFrom` and `j` away from `jFrom`. */
  function Make(n: nat, face: Face, iFrom: Face, jFrom: Face): CubeFace
  {
    var axisInOrder := AxisOf(iFrom) == (AxisOf(face) + 2) % 6;
    var iStep0: int := if axisInOrder then 1 else n;
    var jStep0: int := if axisInOrder then n else 1;
    var flipI := SignOf(iFrom) == (if axisInOrder then SignOf(face) else 0);
    var flipJ := SignOf(jFrom) == (if axisInOrder then 0 else SignOf(face));
    var offset := n * n * face
      + (if flipI then iStep0 * n - iStep0 else 0)
      + (if flipJ then jStep0 * n - jStep0 else 0);
    CubeFace(offset, if flipI then -iStep0 else iStep0, if flipJ then -jStep0 else jStep0)
  }

  /** The face in buffer order: `i` is the column, `j` the row. */
  function MakeStandard(n: nat, face: Face): (v: CubeFace)
    ensures forall i, j :: Index(v, i, j) == Cell(n, face, i, j)
  {
    CubeFace(face * n * n, 1, n)
  }

  function Index(v: CubeFace, i: int, j: int): int
  {
    v.offset + i * v.iStep + j * v.jStep
  }

  /** The view addresses the face's block as one of its eight symmetries: one step is `1`, the
      other `size`, and the offset is the corner the two (possibly reversed) steps start from. */
  predicate ValidView(n: nat, face: Face, v: CubeFace)
  {
    var a, b := Abs(v.iStep), Abs(v.jStep);
    ((a == 1 && b == n) || (a == n && b == 1)) &&
    v.offset == n * n * face + Corner(v.iStep, n) + Corner(v.jStep, n)
  }

  /** How far along a reversed axis its first sticker lies: `-step * (size - 1)`. */
  function Corner(st: int, n: int): int
  {
    if st < 0 then st - st * n else 0
  }

  lemma SpanNeg(x: int, n: int)
    ensures (-x) * n - (-x) == -(x * n - x)
  {
  }

  /** Column and row, within the block, of the sticker a valid view calls `(i, j)`. */
  function ViewCell(n: nat, v: CubeFace, i: int, j: int): (int, int)
  {
    var di := if v.iStep > 0 then i else n - 1 - i;
    var dj := if v.jStep > 0 then j else n - 1 - j;
    if Abs(v.iStep) == 1 then (di, dj) else (dj, di)
  }

  /** A step taken from the far end of a reversed axis. */
  lemma CornerTerm(st: int, n: int, i: int)
    requires st != 0
    ensures Corner(st, n) + i * st == (if st > 0 then i else n - 1 - i) * Abs(st)
  {
    if st < 0 {
      assert (n - 1 - i) * Abs(st) == n * Abs(st) - Abs(st) - i * Abs(st);
    }
  }

  lemma ViewCellIndex(n: nat, face: Face, v: CubeFace, i: int, j: int)
    requires n > 0 && ValidView(n, face, v) && 0 <= i < n && 0 <= j < n
    ensures 0 <= ViewCell(n, v, i, j).0 < n && 0 <= ViewCell(n, v, i, j).1 < n
    ensures Index(v, i, j) == Cell(n, face, ViewCell(n, v, i, j).0, ViewCell(n, v, i, j).1)
  {
    CornerTerm(v.iStep, n, i);
    CornerTerm(v.jStep, n, j);
  }

  /** Each sticker of the block is `(i, j)` of a valid view for exactly one pair. */
  lemma ViewCellOnto(n: nat, face: Face, v: CubeFace, x: int, y: int) returns (i: int, j: int)
    requires n > 0 && ValidView(n, face, v) && 0 <= x < n && 0 <= y < n
    ensures 0 <= i < n && 0 <= j < n && ViewCell(n, v, i, j) == (x, y)
  {
    var p, q := if Abs(v.iStep) == 1 then x else y, if Abs(v.iStep) == 1 then y else x;
    i := if v.iStep > 0 then p else n - 1 - p;
    j := if v.jStep > 0 then q else n - 1 - q;
  }

  /** The cells a view addresses. */
  function Cells(n: nat, v: CubeFace): set<int>
  {
    set i, j | 0 <= i < n && 0 <= j < n :: Index(v, i, j)
  }

  /** A valid view addresses exactly the `size * size` cells of its face's block, each once. */
  lemma ValidViewCells(n: nat, face: Face, v: CubeFace)
    requires n > 0 && ValidView(n, face, v)
    ensures forall c :: c in Cells(n, v) <==> n * n * face <= c < n * n * face + n * n
    ensures forall i, j, k, l ::
              0 <= i < n && 0 <= j < n && 0 <= k < n && 0 <= l < n && Index(v, i, j) == Index(v, k, l)
              ==> i == k && j == l
  {
    forall c | c in Cells(n, v) ensures n * n * face <= c < n * n * face + n * n {
      var i, j :| 0 <= i < n && 0 <= j < n && c == Index(v, i, j);
      ViewInBlock(n, face, v, i, j);
    }
    forall c | n * n * face <= c < n * n * face + n * n ensures c in Cells(n, v) {
      BlockInView(n, face, v, c);
    }
    forall i, j, k, l | 0 <= i < n && 0 <= j < n && 0 <= k < n && 0 <= l < n &&
        Index(v, i, j) == Index(v, k, l)
      ensures i == k && j == l
    {
      ViewInjective(n, face, v, i, j, k, l);
    }
  }

  lemma ViewInBlock(n: nat, face: Face, v: CubeFace, i: int, j: int)
    requires n > 0 && ValidView(n, face, v) && 0 <= i < n && 0 <= j < n
    ensures n * n * face <= Index(v, i, j) < n * n * face + n * n
  {
    ViewCellIndex(n, face, v, i, j);
    CellBounds(n, face, ViewCell(n, v, i, j).0, ViewCell(n, v, i, j).1);
  }

  lemma BlockInView(n: nat, face: Face, v: CubeFace, c: int)
    requires n > 0 && ValidView(n, face, v) && n * n * face <= c < n * n * face + n * n
    ensures c in Cells(n, v)
  {
    var p := c - n * n * face;
    GridDecode(n, p);
    var x, y := p % n, p / n;
    assert c == Cell(n, face, x, y) by {
      assert p == Slot(n, x, y);
    }
    var i, j := ViewCellOnto(n, face, v, x, y);
    ViewCellIndex(n, face, v, i, j);
    assert Index(v, i, j) == c;
    assert Index(v, i, j) in Cells(n, v);
  }

  lemma ViewInjective(n: nat, face: Face, v: CubeFace, i: int, j: int, k: int, l: int)
    requires n > 0 && ValidView(n, face, v)
    requires 0 <= i < n && 0 <= j < n && 0 <= k < n && 0 <= l < n
    requires Index(v, i, j) == Index(v, k, l)
    ensures i == k && j == l
  {
    ViewCellIndex(n, face, v, i, j);
    ViewCellIndex(n, face, v, k, l);
    CellInjective(n, face, ViewCell(n, v, i, j).0, ViewCell(n, v, i, j).1,
                  face, ViewCell(n, v, k, l).0, ViewCell(n, v, k, l).1);
  }

  /** A made view is a valid view of its face. */
  lemma MakeValid(n: nat, face: Face, iFrom: Face, jFrom: Face)
    ensures ValidView(n, face, Make(n, face, iFrom, jFrom))
  {
    var axisInOrder := AxisOf(iFrom) == (AxisOf(face) + 2) % 6;
    var iStep0: int := if axisInOrder then 1 else n;
    var jStep0: int := if axisInOrder then n else 1;
    var flipI := SignOf(iFrom) == (if axisInOrder then SignOf(face) else 0);
    var flipJ := SignOf(jFrom) == (if axisInOrder then 0 else SignOf(face));
    var v := Make(n, face, iFrom, jFrom);
    assert v.iStep == if flipI then -iStep0 else iStep0;
    assert v.jStep == if flipJ then -jStep0 else jStep0;
    assert v.offset == n * n * face + (if flipI then iStep0 * n - iStep0 else 0)
      + (if flipJ then jStep0 * n - jStep0 else 0);
    SpanNeg(iStep0, n);
    SpanNeg(jStep0, n);
  }

  /** The standard view is a valid view of its face. */
  lemma StandardValid(n: nat, face: Face)
    ensures ValidView(n, face, MakeStandard(n, face))
  {
    assert face * n * n == n * n * face;
  }

  /** `transform(swap, flipI, flipJ)`: optionally exchange the two steps, then reverse either. */
  function Transform(n: nat, v: CubeFace, swap: bool, flipI: bool, flipJ: bool): CubeFace
  {
    var iStep := if swap then v.jStep else v.iStep;
    var jStep := if swap then v.iStep else v.jStep;
    var offset := v.offset + (if flipI then iStep * n - iStep else 0)
      + (if flipJ then jStep * n - jStep else 0);
    CubeFace(offset, if flipI then -iStep else iStep, if flipJ then -jStep else jStep)
  }

  /** Sticker `(i, j)` of a transformed view is the sticker of the original view found by
      reversing the flipped coordinates, then exchanging them when `swap` holds. */
  lemma TransformIndex(n: nat, v: CubeFace, swap: bool, flipI: bool, flipJ: bool, i: int, j: int)
    ensures var i', j' := (if flipI then n - 1 - i else i), (if flipJ then n - 1 - j else j);
      Index(Transform(n, v, swap, flipI, flipJ), i, j)
        == if swap then Index(v, j', i') else Index(v, i', j')
  {
    var iStep := if swap then v.jStep else v.iStep;
    var jStep := if swap then v.iStep else v.jStep;
    assert (n - 1 - i) * iStep == iStep * n - iStep - i * iStep;
    assert (n - 1 - j) * jStep == jStep * n - jStep - j * jStep;
  }

  /** Transforming a valid view gives a valid view of the same face. */
  lemma TransformValid(n: nat, face: Face, v: CubeFace, swap: bool, flipI: bool, flipJ: bool)
    requires ValidView(n, face, v)
    ensures ValidView(n, face, Transform(n, v, swap, flipI, flipJ))
  {
    SpanNeg(v.iStep, n);
    SpanNeg(v.jStep, n);
  }

  /** Every transform of a valid view addresses the same cells, so writing through it permutes
      the face. */
  lemma TransformSameCells(n: nat, face: Face, v: CubeFace, swap: bool, flipI: bool, flipJ: bool)
    requires n > 0 && ValidView(n, face, v)
    ensures Cells(n, Transform(n, v, swap, flipI, flipJ)) == Cells(n, v)
  {
    TransformValid(n, face, v, swap, flipI, flipJ);
    ValidViewCells(n, face, v);
    ValidViewCells(n, face, Transform(n, v, swap, flipI, flipJ));
  }

  function FlipI(n: nat, v: CubeFace): CubeFace
  {
    Transform(n, v, false, true, false)
  }

  function FlipJ(n: nat, v: CubeFace): CubeFace
  {
    Transform(n, v, false, false, true)
  }

  lemma FlipTwice(n: nat, v: CubeFace)
    ensures FlipI(n, FlipI(n, v)) == v && FlipJ(n, FlipJ(n, v)) == v
  {
  }

  /** `rotate(angle)`: the view turned `angle` quarter turns. */
  function Rotate(n: nat, v: CubeFace, angle: int): CubeFace
  {
    Quarter(n, v, NormalizeInt(angle, 4))
  }

  /** The view turned `q` quarter turns, for `q` already reduced to `0 .. 3`. */
  function Quarter(n: nat, v: CubeFace, q: int): CubeFace
  {
    match q
    case 0 => v
    case 1 => Transform(n, v, true, false, true)
    case 2 => Transform(n, v, false, true, true)
    case _ => Transform(n, v, true, true, false)
  }

  /** Sticker `(i, j)` of the turned view is the sticker the quarter-turn map sends there. */
  lemma RotateIndex(n: nat, v: CubeFace, angle: int, i: int, j: int)
    ensures Index(Rotate(n, v, angle), i, j) == Index(v, Rot(n, angle, i, j).0, Rot(n, angle, i, j).1)
  {
    TransformIndex(n, v, true, false, true, i, j);
    TransformIndex(n, v, false, true, true, i, j);
    TransformIndex(n, v, true, true, false, i, j);
  }

  /** Angles count modulo 4: the angle 0 returns the view itself and -1 is 3. */
  lemma RotateNormalizes(n: nat, v: CubeFace, angle: int)
    ensures Rotate(n, v, angle) == Rotate(n, v, angle % 4)
    ensures Rotate(n, v, 0) == v && Rotate(n, v, -1) == Rotate(n, v, 3)
  {
    NormalizeIdempotent(angle, 4);
  }

  /** One more quarter turn. */
  lemma QuarterStep(n: nat, v: CubeFace, q: int)
    requires 0 <= q < 4
    ensures Quarter(n, Quarter(n, v, q), 1) == Quarter(n, v, if q == 3 then 0 else q + 1)
  {
    SpanNeg(v.iStep, n);
    SpanNeg(v.jStep, n);
  }

  lemma QuarterCompose(n: nat, v: CubeFace, p: int, q: int)
    requires 0 <= p < 4 && 0 <= q < 4
    ensures Quarter(n, Quarter(n, v, p), q) == Quarter(n, v, (p + q) % 4)
  {
    var w := Quarter(n, v, p);
    var p1 := if p == 3 then 0 else p + 1;
    var p2 := if p1 == 3 then 0 else p1 + 1;
    QuarterStep(n, v, p);
    QuarterStep(n, v, p1);
    QuarterStep(n, v, p2);
    if q >= 2 {
      QuarterStep(n, w, 1);
    }
    if q == 3 {
      QuarterStep(n, w, 2);
    }
  }

  /** Turns compose: turning by `a`, then by `b`, is turning by `a + b`. */
  lemma RotateCompose(n: nat, v: CubeFace, a: int, b: int)
    ensures Rotate(n, Rotate(n, v, a), b) == Rotate(n, v, a + b)
  {
    ModAdd(a, b);
    QuarterCompose(n, v, NormalizeInt(a, 4), NormalizeInt(b, 4));
  }

  lemma RotateQuarters(n: nat, v: CubeFace)
    ensures Rotate(n, Rotate(n, v, 1), 1) == Rotate(n, v, 2)
    ensures Rotate(n, Rotate(n, Rotate(n, Rotate(n, v, 1), 1), 1), 1) == v
  {
    RotateCompose(n, v, 1, 1);
    RotateCompose(n, v, 2, 1);
    RotateCompose(n, v, 3, 1);
  }

  /** A turned valid view is a valid view of the same face. */
  lemma RotateValid(n: nat, face: Face, v: CubeFace, angle: int)
    requires ValidView(n, face, v)
    ensures ValidView(n, face, Rotate(n, v, angle)) && InBuffer(n, Rotate(n, v, angle), 6 * n * n)
  {
    TransformValid(n, face, v, true, false, true);
    TransformValid(n, face, v, false, true, true);
    TransformValid(n, face, v, true, true, false);
    ValidInBuffer(n, face, Rotate(n, v, angle));
  }

  /** Every sticker `(i, j)` of the grid lies in a buffer of length `len`. */
  predicate InBuffer(n: nat, v: CubeFace, len: int)
  {
    forall i, j :: 0 <= i < n && 0 <= j < n ==> 0 <= Index(v, i, j) < len
  }

  lemma ValidInBuffer(n: nat, face: Face, v: CubeFace)
    requires ValidView(n, face, v)
    ensures InBuffer(n, v, 6 * n * n)
  {
    if n > 0 {
      ValidViewCells(n, face, v);
      BlockEnd(n, face);
      forall i, j | 0 <= i < n && 0 <= j < n ensures 0 <= Index(v, i, j) < 6 * n * n {
        assert Index(v, i, j) in Cells(n, v);
      }
    }
  }

  /** `j * size + i`, the position of sticker `(i, j)` in the `getValues` layout. */
  function GridPos(n: nat, i: int, j: int): (t: int)
    requires 0 <= i < n && 0 <= j < n
    ensures 0 <= t < n * n && t % n == i && t / n == j
  {
    SlotBound(n, i, j, n);
    Slot(n, i, j)
  }

  /** Every position of the layout is `GridPos` of its remainder and quotient. */
  lemma GridDecode(n: nat, t: int)
    requires 0 <= t < n * n
    ensures n > 0 && 0 <= t % n < n && 0 <= t / n < n && GridPos(n, t % n, t / n) == t
  {
    DivBound(n, t);
    SlotDecode(n, t);
  }

  /** The grid in `getValues` layout: entry `j * size + i` is sticker `(i, j)`. */
  function GridIndices(n: nat, v: CubeFace): (idx: seq<int>)
    ensures |idx| == n * n
    ensures forall i, j :: 0 <= i < n && 0 <= j < n ==> idx[GridPos(n, i, j)] == Index(v, i, j)
  {
    seq(n * n, t requires 0 <= t < n * n => GridDecode(n, t); Index(v, t % n, t / n))
  }

  /** The grid in the order `setValues` visits it: `i` outer, `j` inner, so sticker `(i, j)`
      comes at `i * size + j`. */
  function LoopIndices(n: nat, v: CubeFace): (idx: seq<int>)
    ensures |idx| == n * n
  {
    seq(n * n, t requires 0 <= t < n * n => GridDecode(n, t); Index(v, t / n, t % n))
  }

  /** The values in the order `setValues` writes them. */
  function LoopValues<T>(n: nat, vals: seq<T>): (r: seq<T>)
    requires n * n <= |vals|
    ensures |r| == n * n
  {
    seq(n * n, t requires 0 <= t < n * n => GridDecode(n, t); vals[GridPos(n, t / n, t % n)])
  }

  /** Sticker `(i, j)` comes at `i * size + j` in the `setValues` order, with entry
      `j * size + i` of the values. */
  lemma LoopEntry<T>(n: nat, v: CubeFace, vals: seq<T>, i: int, j: int)
    requires 0 <= i < n && 0 <= j < n && n * n <= |vals|
    ensures LoopIndices(n, v)[GridPos(n, j, i)] == Index(v, i, j)
    ensures LoopValues(n, vals)[GridPos(n, j, i)] == vals[GridPos(n, i, j)]
  {
  }

  lemma IndexListsInRange(n: nat, v: CubeFace, len: int)
    requires InBuffer(n, v, len)
    ensures InRange(GridIndices(n, v), len) && InRange(LoopIndices(n, v), len)
  {
    forall t | 0 <= t < n * n
      ensures 0 <= GridIndices(n, v)[t] < len && 0 <= LoopIndices(n, v)[t] < len
    {
      GridDecode(n, t);
    }
  }

  /** `get(i, j)`. */
  function Get(d: seq<Int8>, v: CubeFace, i: int, j: int): (x: Int8)
    requires 0 <= Index(v, i, j) < |d|
    ensures x == d[v.offset + i * v.iStep + j * v.jStep]
  {
    d[Index(v, i, j)]
  }

  /** The values `getValues` returns: entry `j * size + i` is sticker `(i, j)`. */
  function Values<T>(d: seq<T>, n: nat, v: CubeFace): (r: seq<T>)
    requires InBuffer(n, v, |d|)
    ensures |r| == n * n
    ensures forall i, j :: 0 <= i < n && 0 <= j < n ==> r[GridPos(n, i, j)] == d[Index(v, i, j)]
  {
    IndexListsInRange(n, v, |d|);
    Gather(d, GridIndices(n, v))
  }

  /** The buffer after `setValues(vals)`: entry `j * size + i` written to sticker `(i, j)`. */
  function Write<T>(d: seq<T>, n: nat, v: CubeFace, vals: seq<T>): (r: seq<T>)
    requires InBuffer(n, v, |d|) && n * n <= |vals|
    ensures |r| == |d|
  {
    IndexListsInRange(n, v, |d|);
    Scatter(d, LoopIndices(n, v), LoopValues(n, vals))
  }

  /** Through a valid view `setValues` puts entry `j * size + i` at sticker `(i, j)` and changes
      no cell outside the face's block. */
  lemma WriteAt<T>(d: seq<T>, n: nat, face: Face, v: CubeFace, vals: seq<T>)
    requires ValidView(n, face, v) && InBuffer(n, v, |d|) && n * n <= |vals|
    ensures forall i, j :: 0 <= i < n && 0 <= j < n ==>
              Write(d, n, v, vals)[Index(v, i, j)] == vals[GridPos(n, i, j)]
    ensures forall c :: 0 <= c < |d| && !(n * n * face <= c < n * n * face + n * n) ==>
              Write(d, n, v, vals)[c] == d[c]
  {
    IndexListsInRange(n, v, |d|);
    if n > 0 {
      forall i, j | 0 <= i < n && 0 <= j < n
        ensures Write(d, n, v, vals)[Index(v, i, j)] == vals[GridPos(n, i, j)]
      {
        WriteSticker(d, n, face, v, vals, i, j);
      }
      forall c | 0 <= c < |d| && !(n * n * face <= c < n * n * face + n * n)
        ensures Write(d, n, v, vals)[c] == d[c]
      {
        WriteOutside(d, n, face, v, vals, c);
      }
    }
  }

  lemma WriteSticker<T>(d: seq<T>, n: nat, face: Face, v: CubeFace, vals: seq<T>, i: int, j: int)
    requires ValidView(n, face, v) && InBuffer(n, v, |d|) && n * n <= |vals|
    requires 0 <= i < n && 0 <= j < n
    ensures 0 <= Index(v, i, j) < |d| && 0 <= GridPos(n, i, j) < |vals|
    ensures Write(d, n, v, vals)[Index(v, i, j)] == vals[GridPos(n, i, j)]
  {
    IndexListsInRange(n, v, |d|);
    var idx, lv := LoopIndices(n, v), LoopValues(n, vals);
    LoopIndicesInBlock(n, face, v);
    ScatterAt(d, idx, lv);
    var t := GridPos(n, j, i);
    LoopEntry(n, v, vals, i, j);
    assert Scatter(d, idx, lv)[idx[t]] == lv[t];
  }

  lemma WriteOutside<T>(d: seq<T>, n: nat, face: Face, v: CubeFace, vals: seq<T>, c: int)
    requires ValidView(n, face, v) && InBuffer(n, v, |d|) && n * n <= |vals| && n > 0
    requires 0 <= c < |d| && !(n * n * face <= c < n * n * face + n * n)
    ensures Write(d, n, v, vals)[c] == d[c]
  {
    IndexListsInRange(n, v, |d|);
    var idx, lv := LoopIndices(n, v), LoopValues(n, vals);
    LoopIndicesInBlock(n, face, v);
    ScatterAt(d, idx, lv);
    assert c !in idx;
  }

  /** The `setValues` order of a valid view runs over its face's block, each cell once. */
  lemma LoopIndicesInBlock(n: nat, face: Face, v: CubeFace)
    requires n > 0 && ValidView(n, face, v)
    ensures Injective(LoopIndices(n, v))
    ensures forall t :: 0 <= t < n * n ==> n * n * face <= LoopIndices(n, v)[t] < n * n * face + n * n
  {
    ValidViewCells(n, face, v);
    var idx := LoopIndices(n, v);
    forall s, t | 0 <= s < n * n && 0 <= t < n * n && s != t ensures idx[s] != idx[t] {
      GridDecode(n, s);
      GridDecode(n, t);
    }
    forall t | 0 <= t < n * n ensures n * n * face <= idx[t] < n * n * face + n * n {
      GridDecode(n, t);
      assert idx[t] in Cells(n, v);
    }
  }

  /** Reading after writing through a valid view returns the values written. */
  lemma ValuesOfWrite<T>(d: seq<T>, n: nat, face: Face, v: CubeFace, vals: seq<T>)
    requires ValidView(n, face, v) && InBuffer(n, v, |d|) && n * n <= |vals|
    ensures Values(Write(d, n, v, vals), n, v) == vals[..n * n]
  {
    WriteAt(d, n, face, v, vals);
    var w := Write(d, n, v, vals);
    forall t | 0 <= t < n * n ensures Values(w, n, v)[t] == vals[t] {
      GridDecode(n, t);
    }
  }

  /** Writing back the values just read changes nothing. */
  lemma WriteOfValues<T>(d: seq<T>, n: nat, v: CubeFace)
    requires InBuffer(n, v, |d|)
    ensures Write(d, n, v, Values(d, n, v)) == d
  {
    IndexListsInRange(n, v, |d|);
    assert LoopValues(n, Values(d, n, v)) == Gather(d, LoopIndices(n, v)) by {
      forall t | 0 <= t < n * n
        ensures LoopValues(n, Values(d, n, v))[t] == d[LoopIndices(n, v)[t]]
      {
        GridDecode(n, t);
      }
    }
    ScatterGatherUpTo(d, LoopIndices(n, v), n * n);
  }

  /** `getValues()`: the grid copied into a fresh array in `j * size + i` layout. */
  method GetValues(config: CubeConfig, v: CubeFace) returns (res: seq<Int8>)
    requires InBuffer(config.size, v, config.data.Length)
    ensures res == Values(config.data[..], config.size, v)
  {
    var n := config.size;
    var a := new Int8[n * n];
    var i := 0;
    while i < n
      invariant 0 <= i <= n
      invariant forall p, q | 0 <= p < i && 0 <= q < n :: a[GridPos(n, p, q)] == config.data[Index(v, p, q)]
    {
      var j := 0;
      while j < n
        invariant 0 <= j <= n
        invariant forall p, q | 0 <= p < i && 0 <= q < n :: a[GridPos(n, p, q)] == config.data[Index(v, p, q)]
        invariant forall q | 0 <= q < j :: a[GridPos(n, i, q)] == config.data[Index(v, i, q)]
      {
        var x := v.offset + i * v.iStep + j * v.jStep;
        assert x == Index(v, i, j);
        var t := j * n + i;
        assert t == GridPos(n, i, j);
        a[t] := config.data[x];
        forall p, q | 0 <= p < n && 0 <= q < n && (p != i || q != j)
          ensures GridPos(n, p, q) != t
        {
          GridPosInjective(n, p, q, i, j);
        }
        j := j + 1;
      }
      i := i + 1;
    }
    res := a[..];
    forall t | 0 <= t < n * n ensures res[t] == Values(config.data[..], n, v)[t] {
      GridDecode(n, t);
    }
  }

  /** Distinct stickers have distinct slots in the `j * size + i` layout. */
  lemma GridPosInjective(n: nat, p: int, q: int, i: int, j: int)
    requires 0 <= p < n && 0 <= q < n && 0 <= i < n && 0 <= j < n && (p != i || q != j)
    ensures GridPos(n, p, q) != GridPos(n, i, j)
  {
  }

  /** `setValues(values)`: writes entry `j * size + i` to sticker `(i, j)`, `i` outer, `j` inner. */
  method SetValues(config: CubeConfig, v: CubeFace, values: seq<Int8>)
    requires InBuffer(config.size, v, config.data.Length) && config.size * config.size <= |values|
    modifies config.data
    ensures config.data[..] == Write(old(config.data[..]), config.size, v, values)
  {
    var n := config.size;
    ghost var d0 := config.data[..];
    IndexListsInRange(n, v, |d0|);
    ghost var idx, vals := LoopIndices(n, v), LoopValues(n, values);
    var i := 0;
    while i < n
      invariant 0 <= i <= n && i * n <= n * n
      invariant config.data[..] == ScatterUpTo(d0, idx, vals, i * n)
    {
      MulLe(i + 1, n, n);
      MulSucc(i, n);
      SetColumn(config, v, values, i, d0, idx, vals);
      i := i + 1;
    }
  }

  /** The inner loop of `setValues`: writes the stickers `(i, 0)` to `(i, size - 1)`. */
  method SetColumn(config: CubeConfig, v: CubeFace, values: seq<Int8>, i: int,
                   ghost d0: seq<Int8>, ghost idx: seq<int>, ghost vals: seq<Int8>)
    requires InBuffer(config.size, v, config.data.Length) && config.size * config.size <= |values|
    requires 0 <= i < config.size && (i + 1) * config.size <= config.size * config.size
    requires i * config.size + config.size == (i + 1) * config.size
    requires |d0| == config.data.Length && InRange(idx, |d0|)
    requires idx == LoopIndices(config.size, v) && vals == LoopValues(config.size, values)
    requires config.data[..] == ScatterUpTo(d0, idx, vals, i * config.size)
    modifies config.data
    ensures config.data[..] == ScatterUpTo(d0, idx, vals, (i + 1) * config.size)
  {
    var n := config.size;
    ghost var base := i * n;
    var j := 0;
    while j < n
      invariant 0 <= j <= n
      invariant Filled(config.data[..], d0, idx, vals, base + j)
    {
      var x := Index(v, i, j);
      ghost var before := config.data[..];
      ghost var k := base + j;
      var w := j * n + i;
      SetStep(d0, n, v, values, idx, vals, i, j, k, before, x, w);
      config.data[x] := values[w];
      assert config.data[..] == before[x := values[w]];
      assert Filled(config.data[..], d0, idx, vals, k + 1);
      j := j + 1;
    }
  }

  /** The buffer holds the first `k` writes of the scatter. */
  ghost predicate Filled(a: seq<Int8>, d0: seq<Int8>, idx: seq<int>, vals: seq<Int8>, k: int)
    requires InRange(idx, |d0|)
  {
    0 <= k <= |idx| <= |vals| && a == ScatterUpTo(d0, idx, vals, k)
  }

  lemma MulSucc(i: int, n: int)
    ensures i * n + n == (i + 1) * n
  {
  }

  /** Writing sticker `(i, j)` is the next step of the scatter in loop order. */
  lemma SetStep(d0: seq<Int8>, n: nat, v: CubeFace, values: seq<Int8>, idx: seq<int>, vals: seq<Int8>,
                i: int, j: int, k: nat, cur: seq<Int8>, x: int, w: int)
    requires 0 <= i < n && 0 <= j < n && n * n <= |values| && k == i * n + j && k < n * n
    requires idx == LoopIndices(n, v) && vals == LoopValues(n, values) && InRange(idx, |d0|)
    requires cur == ScatterUpTo(d0, idx, vals, k) && x == Index(v, i, j)
    requires w == j * n + i
    ensures 0 <= w < |values| && 0 <= x < |cur| && k + 1 <= |idx|
    ensures cur[x := values[w]] == ScatterUpTo(d0, idx, vals, k + 1)
  {
    LoopStep(n, v, values, i, j, k, w);
    ScatterNext(d0, idx, vals, k, cur, x, values[w]);
  }

  lemma LoopStep(n: nat, v: CubeFace, values: seq<Int8>, i: int, j: int, k: int, w: int)
    requires 0 <= i < n && 0 <= j < n && n * n <= |values| && k == i * n + j && w == j * n + i
    ensures 0 <= k < n * n && 0 <= w < n * n
    ensures LoopIndices(n, v)[k] == v.offset + i * v.iStep + j * v.jStep
    ensures LoopValues(n, values)[k] == values[w]
  {
    LoopEntry(n, v, values, i, j);
    assert GridPos(n, j, i) == k;
    assert GridPos(n, i, j) == w;
  }

}
