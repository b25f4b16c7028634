/** A row of stickers on one face: `size` positions `offset + k * step` of the buffer. */
module Rows {
  import opened Numbers
  import opened Faces
  import opened Config
  import opened Permutations

  datatype CubeRow = CubeRow(offset: int, step: int)

  /** The reference faces lie on the two axes other than the axis of `face`. */
  predicate ValidFrame(face: Face, a: Face, b: Face)
  {
    AxisOf(a) != AxisOf(face) && AxisOf(b) != AxisOf(face) && AxisOf(a) != AxisOf(b)
  }

  /** Row `i` of `face`, counted from the edge shared with `iFrom`, running away from `from`. */
  function Make(n: nat, face: Face, from: Face, iFrom: Face, i: int): CubeRow
  {
    var axisInOrder := AxisOf(from) == (AxisOf(face) + 2) % 6;
    var step0: int := if axisInOrder then 1 else n;
    var iStep0: int := if axisInOrder then n else 1;
    var flipStep := SignOf(from) == (if axisInOrder then SignOf(face) else 1);
    var flipI := SignOf(iFrom) == (if axisInOrder then 1 else SignOf(face));
    var offset := n * n * face
      + (if flipStep then step0 * n - step0 else 0)
      + (if flipI then iStep0 * n - iStep0 else 0);
    var step := if flipStep then -step0 else step0;
    var iStep := if flipI then -iStep0 else iStep0;
    CubeRow(offset + i * iStep, step)
  }

  /** Position of the `k`-th sticker of the row. */
  function Index(r: CubeRow, k: int): int
  {
    r.offset + k * r.step
  }

  /** The row's positions, in order. */
  function Indices(n: nat, r: CubeRow): (idx: seq<int>)
    ensures |idx| == n && forall k :: 0 <= k < n ==> idx[k] == Index(r, k)
  {
    seq(n, k => Index(r, k))
  }

  /** The stickers of a made row are `size` cells of the face's block, one step of `1` or `size`
      apart, and (as `step` is never 0 for a cube with stickers) pairwise distinct. */
  lemma MakeInBlock(n: nat, face: Face, from: Face, iFrom: Face, i: int)
    requires 0 <= i < n
    ensures InBlock(n, face, Make(n, face, from, iFrom, i))
  {
    var r := Make(n, face, from, iFrom, i);
    forall k | 0 <= k < n
      ensures n * n * face <= Index(r, k) < n * n * face + n * n
    {
      MakeCell(n, face, from, iFrom, i, k);
    }
    MakeStep(n, face, from, iFrom, i);
    StepInBlock(n, face, r);
  }

  lemma StepInBlock(n: nat, face: Face, r: CubeRow)
    requires r.step == 1 || r.step == -1 || r.step == n || r.step == -(n as int)
    requires forall k :: 0 <= k < n ==> n * n * face <= Index(r, k) < n * n * face + n * n
    ensures InBlock(n, face, r)
  {
    BlockEnd(n, face);
    StepDistinct(n, r);
    var idx := Indices(n, r);
    forall k | 0 <= k < n ensures 0 <= idx[k] < 6 * n * n {
      assert n * n * face <= Index(r, k) < n * n * face + n * n;
    }
  }

  predicate InBlock(n: nat, face: Face, r: CubeRow)
  {
    (r.step == 1 || r.step == -1 || r.step == n || r.step == -(n as int)) &&
    (forall k :: 0 <= k < n ==> n * n * face <= Index(r, k) < n * n * face + n * n) &&
    InRange(Indices(n, r), 6 * n * n) && Injective(Indices(n, r))
  }

  lemma MakeStep(n: nat, face: Face, from: Face, iFrom: Face, i: int)
    ensures var r := Make(n, face, from, iFrom, i);
      r.step == 1 || r.step == -1 || r.step == n || r.step == -(n as int)
  {
  }

  lemma MakeCell(n: nat, face: Face, from: Face, iFrom: Face, i: int, k: int)
    requires 0 <= i < n && 0 <= k < n
    ensures n * n * face <= Index(Make(n, face, from, iFrom, i), k) < n * n * face + n * n
  {
    var r := Make(n, face, from, iFrom, i);
    var axisInOrder := AxisOf(from) == (AxisOf(face) + 2) % 6;
    var flipStep := SignOf(from) == (if axisInOrder then SignOf(face) else 1);
    var flipI := SignOf(iFrom) == (if axisInOrder then 1 else SignOf(face));
    var step0: int, iStep0: int := if axisInOrder then 1 else n, if axisInOrder then n else 1;
    var a := if flipStep then n - 1 - k else k;
    var b := if flipI then n - 1 - i else i;
    var x := (if flipStep then step0 * n - step0 else 0) + k * (if flipStep then -step0 else step0);
    var y := (if flipI then iStep0 * n - iStep0 else 0) + i * (if flipI then -iStep0 else iStep0);
    assert Index(r, k) == n * n * face + x + y;
    FlipTerm(flipStep, n, k, step0);
    FlipTerm(flipI, n, i, iStep0);
    if axisInOrder {
      assert Index(r, k) == Cell(n, face, a, b);
      CellBounds(n, face, a, b);
    } else {
      assert Index(r, k) == Cell(n, face, b, a);
      CellBounds(n, face, b, a);
    }
  }

  /** Walking a flipped axis from its far end: `(size - 1) * st - k * st == (size - 1 - k) * st`. */
  lemma FlipTerm(flip: bool, n: int, k: int, st: int)
    ensures (if flip then st * n - st else 0) + k * (if flip then -st else st)
      == (if flip then n - 1 - k else k) * st
  {
    if flip {
      assert (n - 1 - k) * st == n * st - st - k * st;
    }
  }

  /** Positions one non-zero step apart are distinct. */
  lemma StepDistinct(n: nat, r: CubeRow)
    requires r.step == 1 || r.step == -1 || r.step == n || r.step == -(n as int)
    ensures Injective(Indices(n, r))
  {
    forall k, l | 0 <= k < n && 0 <= l < n && k != l
      ensures Index(r, k) != Index(r, l)
    {
      DistinctMultiples(k, l, r.step);
    }
  }

  lemma DistinctMultiples(k: int, l: int, s: int)
    requires k != l && s != 0
    ensures k * s != l * s
  {
    assert k * s - l * s == (k - l) * s;
    if s > 0 { MulBound(k - l, s); } else { MulBound(k - l, -s); assert (k - l) * s == -((k - l) * -s); }
  }

  /** `get(k)`. */
  function Get(d: seq<Int8>, r: CubeRow, k: int): (v: Int8)
    requires 0 <= Index(r, k) < |d|
    ensures v == d[r.offset + k * r.step]
  {
    d[Index(r, k)]
  }

  /** The values along the row. */
  function Values(d: seq<Int8>, n: nat, r: CubeRow): (vs: seq<Int8>)
    requires InRange(Indices(n, r), |d|)
    ensures |vs| == n && forall k :: 0 <= k < n ==> vs[k] == Get(d, r, k)
  {
    Gather(d, Indices(n, r))
  }

  /** The buffer after `setValues(vals, o)`: `vals[o + k]` written to the `k`-th sticker. */
  function Write<T>(d: seq<T>, n: nat, r: CubeRow, vals: seq<T>, o: nat): seq<T>
    requires InRange(Indices(n, r), |d|) && o + n <= |vals|
  {
    Scatter(d, Indices(n, r), vals[o..o + n])
  }

  /** `setValues(vals, o)` puts `vals[o + k]` at sticker `k` and leaves every other cell alone. */
  lemma WriteAt<T>(d: seq<T>, n: nat, r: CubeRow, vals: seq<T>, o: nat)
    requires InRange(Indices(n, r), |d|) && Injective(Indices(n, r)) && o + n <= |vals|
    ensures |Write(d, n, r, vals, o)| == |d|
    ensures forall k :: 0 <= k < n ==> Write(d, n, r, vals, o)[Index(r, k)] == vals[o + k]
    ensures forall c :: 0 <= c < |d| && c !in Indices(n, r) ==> Write(d, n, r, vals, o)[c] == d[c]
  {
    ScatterAt(d, Indices(n, r), vals[o..o + n]);
    forall k | 0 <= k < n
      ensures Write(d, n, r, vals, o)[Index(r, k)] == vals[o + k]
    {
      assert Indices(n, r)[k] == Index(r, k);
    }
  }

  /** Writing back what was read leaves the buffer unchanged; reading back what was written gives
      the values written. */
  lemma RoundTrip(d: seq<Int8>, n: nat, r: CubeRow, vals: seq<Int8>)
    requires InRange(Indices(n, r), |d|) && n <= |vals|
    ensures Write(d, n, r, Values(d, n, r), 0) == d
    ensures Injective(Indices(n, r)) ==> Values(Write(d, n, r, vals, 0), n, r) == vals[..n]
  {
    assert Values(d, n, r)[0..n] == Gather(d, Indices(n, r));
    ScatterGatherUpTo(d, Indices(n, r), n);
    if Injective(Indices(n, r)) {
      GatherScatter(d, Indices(n, r), vals[0..n]);
    }
  }

  /** `getValues()`: copies the row into a fresh array. */
  method GetValues(config: CubeConfig, r: CubeRow) returns (res: seq<Int8>)
    requires InRange(Indices(config.size, r), config.data.Length)
    ensures res == Values(config.data[..], config.size, r)
  {
    res := [];
    var i := 0;
    while i < config.size
      invariant 0 <= i <= config.size
      invariant res == Values(config.data[..], config.size, r)[..i]
    {
      assert Indices(config.size, r)[i] == Index(r, i);
      res := res + [config.data[r.offset + i * r.step]];
      i := i + 1;
    }
  }

  /** `setValues(values, offset)`: writes `values[offset + k]` to sticker `k`, in order. */
  method SetValues(config: CubeConfig, r: CubeRow, values: seq<Int8>, offset: nat)
    requires InRange(Indices(config.size, r), config.data.Length)
    requires offset + config.size <= |values|
    modifies config.data
    ensures config.data[..] == Write(old(config.data[..]), config.size, r, values, offset)
  {
    ghost var d0 := config.data[..];
    ghost var idx := Indices(config.size, r);
    ghost var vals := values[offset..offset + config.size];
    var i := 0;
    while i < config.size
      invariant 0 <= i <= config.size
      invariant config.data[..] == ScatterUpTo(d0, idx, vals, i)
    {
      assert idx[i] == r.offset + i * r.step;
      config.data[r.offset + i * r.step] := values[i + offset];
      i := i + 1;
    }
  }
}
