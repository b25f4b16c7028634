/** The band of stickers around a face at a given depth: four rows on the four neighbouring
    faces, `4 * size` stickers in all, read and written as one list. */
module Rings {
  import opened Numbers
  import opened Wrappers
  import opened Faces
  import opened Config
  import opened Permutations
  import Rows

  datatype CubeRing = CubeRing(row1: Rows.CubeRow, row2: Rows.CubeRow, row3: Rows.CubeRow, row4: Rows.CubeRow)

  /** The face each row of `make(face, offset, iFrom, jFrom)` lies on, in row order. */
  function RowFace(iFrom: Face, jFrom: Face, m: int): Face
  {
    match m
    case 0 => jFrom
    case 1 => Opposite(iFrom)
    case 2 => Opposite(jFrom)
    case _ => iFrom
  }

  /** The ring at depth `offset` below `face`, its rows starting on `jFrom`, then `iFrom ^ 1`,
      `jFrom ^ 1` and `iFrom`. */
  function Make(n: nat, face: Face, offset: int, iFrom: Face, jFrom: Face): CubeRing
  {
    CubeRing(
      Rows.Make(n, jFrom, iFrom, face, offset),
      Rows.Make(n, Opposite(iFrom), jFrom, face, offset),
      Rows.Make(n, Opposite(jFrom), Opposite(iFrom), face, offset),
      Rows.Make(n, iFrom, Opposite(jFrom), face, offset))
  }

  /** The reference faces `makeStandard` uses for each face. */
  function StandardFrame(face: Face): (Face, Face)
  {
    match face
    case 0 => (Top, Back)
    case 1 => (Bottom, Back)
    case 2 => (Front, Left)
    case 3 => (Back, Left)
    case 4 => (Right, Bottom)
    case _ => (Left, Bottom)
  }

  function MakeStandard(n: nat, face: Face, offset: int): CubeRing
  {
    Make(n, face, offset, StandardFrame(face).0, StandardFrame(face).1)
  }

  /** Every standard frame is a valid frame: both reference faces lie off the face's axis and
      on different axes. */
  lemma StandardFrameValid(face: Face)
    ensures Rows.ValidFrame(face, StandardFrame(face).0, StandardFrame(face).1)
  {
  }

  /** Row `m` (0 to 3) of the ring. */
  function RowAt(r: CubeRing, m: int): Rows.CubeRow
    requires 0 <= m < 4
  {
    match m
    case 0 => r.row1
    case 1 => r.row2
    case 2 => r.row3
    case _ => r.row4
  }

  /** `getRow(i)`: the rows are numbered 0 to 3; any other index is an error. */
  function GetRow(r: CubeRing, i: int): (res: Result<Rows.CubeRow>)
    ensures 0 <= i < 4 ==> res == Success(RowAt(r, i))
    ensures !(0 <= i < 4) ==> res == Failure("Invalid row index")
  {
    match i
    case 0 => Success(r.row1)
    case 1 => Success(r.row2)
    case 2 => Success(r.row3)
    case 3 => Success(r.row4)
    case _ => Failure("Invalid row index")
  }

  /** The ring's `4 * size` positions: the four rows one after the other. */
  function Indices(n: nat, r: CubeRing): (idx: seq<int>)
    ensures |idx| == 4 * n
  {
    Rows.Indices(n, r.row1) + Rows.Indices(n, r.row2) + Rows.Indices(n, r.row3) + Rows.Indices(n, r.row4)
  }

  /** Position `m * size + k` of the ring is sticker `k` of row `m`. */
  lemma IndexAt(n: nat, r: CubeRing, m: int, k: int)
    requires 0 <= m < 4 && 0 <= k < n
    ensures 0 <= m * n + k < 4 * n
    ensures Indices(n, r)[m * n + k] == Rows.Index(RowAt(r, m), k)
  {
    var i1, i2, i3, i4 := Rows.Indices(n, r.row1), Rows.Indices(n, r.row2), Rows.Indices(n, r.row3), Rows.Indices(n, r.row4);
    var idx := Indices(n, r);
    assert idx == i1 + i2 + i3 + i4;
    if m == 0 {
      assert idx[k] == i1[k];
    } else if m == 1 {
      assert idx[n + k] == i2[k];
    } else if m == 2 {
      assert idx[2 * n + k] == i3[k];
    } else {
      assert idx[3 * n + k] == i4[k];
    }
  }

  /** Every position of the ring is sticker `t % size` of row `t / size`. */
  lemma IndexDecode(n: nat, r: CubeRing, t: int)
    requires 0 <= t < 4 * n
    ensures n > 0 && 0 <= t % n < n && 0 <= t / n < 4
    ensures Indices(n, r)[t] == Rows.Index(RowAt(r, t / n), t % n)
  {
    SlotDecode(n, t);
    if t / n >= 4 { MulLe(4, t / n, n); }
    IndexAt(n, r, t / n, t % n);
  }

  /** For a valid frame and a depth inside the cube, row `m` runs over `size` distinct stickers
      of face `RowFace(m)`; the four faces are distinct, so the `4 * size` stickers are distinct,
      and none lies on `face` or its opposite face. */
  lemma MakeValid(n: nat, face: Face, offset: int, iFrom: Face, jFrom: Face)
    requires Rows.ValidFrame(face, iFrom, jFrom) && 0 <= offset < n
    ensures var r := Make(n, face, offset, iFrom, jFrom);
      InRange(Indices(n, r), 6 * n * n) && Injective(Indices(n, r)) &&
      (forall t :: 0 <= t < 4 * n ==> !InBlock(n, face, Indices(n, r)[t]) && !InBlock(n, Opposite(face), Indices(n, r)[t]))
  {
    var r := Make(n, face, offset, iFrom, jFrom);
    MakeRowsOn(n, face, offset, iFrom, jFrom);
    RingInBlocks(n, r, iFrom, jFrom);
    RingDistinct(n, r, iFrom, jFrom);
    RingOffAxis(n, r, face, iFrom, jFrom);
  }

  /** With the four rows on faces off `face`'s axis, no sticker of the ring lies on `face` or
      on its opposite. */
  lemma RingOffAxis(n: nat, r: CubeRing, face: Face, iFrom: Face, jFrom: Face)
    requires RowsOn(n, r, iFrom, jFrom) && Rows.ValidFrame(face, iFrom, jFrom)
    ensures forall t :: 0 <= t < 4 * n ==> !InBlock(n, face, Indices(n, r)[t]) && !InBlock(n, Opposite(face), Indices(n, r)[t])
  {
    RingInBlocks(n, r, iFrom, jFrom);
    var idx := Indices(n, r);
    forall t | 0 <= t < 4 * n
      ensures !InBlock(n, face, idx[t]) && !InBlock(n, Opposite(face), idx[t])
    {
      IndexDecode(n, r, t);
      var g := RowFace(iFrom, jFrom, t / n);
      assert AxisOf(g) != AxisOf(face);
      if InBlock(n, face, idx[t]) { BlocksDisjoint(n, g, face, idx[t]); }
      if InBlock(n, Opposite(face), idx[t]) { BlocksDisjoint(n, g, Opposite(face), idx[t]); }
    }
  }

  /** Row `m` of the ring lies on face `RowFace(m)`. */
  predicate RowsOn(n: nat, r: CubeRing, iFrom: Face, jFrom: Face)
  {
    forall m :: 0 <= m < 4 ==> Rows.InBlock(n, RowFace(iFrom, jFrom, m), RowAt(r, m))
  }

  lemma MakeRowsOn(n: nat, face: Face, offset: int, iFrom: Face, jFrom: Face)
    requires 0 <= offset < n
    ensures RowsOn(n, Make(n, face, offset, iFrom, jFrom), iFrom, jFrom)
  {
    Rows.MakeInBlock(n, jFrom, iFrom, face, offset);
    Rows.MakeInBlock(n, Opposite(iFrom), jFrom, face, offset);
    Rows.MakeInBlock(n, Opposite(jFrom), Opposite(iFrom), face, offset);
    Rows.MakeInBlock(n, iFrom, Opposite(jFrom), face, offset);
  }

  lemma RingInBlocks(n: nat, r: CubeRing, iFrom: Face, jFrom: Face)
    requires RowsOn(n, r, iFrom, jFrom)
    ensures InRange(Indices(n, r), 6 * n * n)
    ensures forall t :: 0 <= t < 4 * n ==> InBlock(n, RowFace(iFrom, jFrom, t / n), Indices(n, r)[t])
  {
    forall t | 0 <= t < 4 * n
      ensures 0 <= Indices(n, r)[t] < 6 * n * n && InBlock(n, RowFace(iFrom, jFrom, t / n), Indices(n, r)[t])
    {
      IndexDecode(n, r, t);
      assert Rows.Indices(n, RowAt(r, t / n))[t % n] == Indices(n, r)[t];
    }
  }

  lemma RingDistinct(n: nat, r: CubeRing, iFrom: Face, jFrom: Face)
    requires RowsOn(n, r, iFrom, jFrom) && AxisOf(iFrom) != AxisOf(jFrom)
    ensures Injective(Indices(n, r))
  {
    var idx := Indices(n, r);
    forall s, t | 0 <= s < 4 * n && 0 <= t < 4 * n && s != t ensures idx[s] != idx[t] {
      if s / n == t / n {
        SameRowDistinct(n, r, iFrom, jFrom, s, t);
      } else {
        OtherRowDistinct(n, r, iFrom, jFrom, s, t);
      }
    }
  }

  /** Positions on two different rows lie on two different faces. */
  lemma OtherRowDistinct(n: nat, r: CubeRing, iFrom: Face, jFrom: Face, s: int, t: int)
    requires RowsOn(n, r, iFrom, jFrom) && AxisOf(iFrom) != AxisOf(jFrom)
    requires 0 <= s < 4 * n && 0 <= t < 4 * n && s / n != t / n
    ensures Indices(n, r)[s] != Indices(n, r)[t]
  {
    RingInBlocks(n, r, iFrom, jFrom);
    IndexDecode(n, r, s);
    IndexDecode(n, r, t);
    var f, g := RowFace(iFrom, jFrom, s / n), RowFace(iFrom, jFrom, t / n);
    assert f != g;
    if Indices(n, r)[s] == Indices(n, r)[t] {
      BlocksDisjoint(n, f, g, Indices(n, r)[s]);
    }
  }

  /** Two positions of the same row are distinct stickers. */
  lemma SameRowDistinct(n: nat, r: CubeRing, iFrom: Face, jFrom: Face, s: int, t: int)
    requires RowsOn(n, r, iFrom, jFrom)
    requires 0 <= s < 4 * n && 0 <= t < 4 * n && s != t && s / n == t / n
    ensures Indices(n, r)[s] != Indices(n, r)[t]
  {
    IndexDecode(n, r, s);
    IndexDecode(n, r, t);
    var row := RowAt(r, t / n);
    assert Rows.InBlock(n, RowFace(iFrom, jFrom, t / n), row);
    assert s % n != t % n by { SlotDecode(n, s); SlotDecode(n, t); }
    assert Rows.Indices(n, row)[s % n] == Indices(n, r)[s];
    assert Rows.Indices(n, row)[t % n] == Indices(n, r)[t];
  }

  /** `get(i)`: sticker `i % size` of row `floor(i / size)`, and nothing outside `0 .. 4 * size`
      (no row matches there). */
  function Get(d: seq<Int8>, n: nat, r: CubeRing, i: int): (v: Option<Int8>)
    requires InRange(Indices(n, r), |d|)
    ensures 0 <= i < 4 * n ==> v == Some(d[Indices(n, r)[i]])
    ensures !(0 <= i < 4 * n) ==> v == None
  {
    if 0 <= i < 4 * n then
      IndexDecode(n, r, i);
      Some(Rows.Get(d, RowAt(r, i / n), i % n))
    else
      None
  }

  /** Inside the ring, `get(i)` is `getRow(floor(i / size)).get(i % size)`. */
  lemma GetByRow(d: seq<Int8>, n: nat, r: CubeRing, i: int)
    requires InRange(Indices(n, r), |d|) && 0 <= i < 4 * n
    ensures GetRow(r, i / n).Success?
    ensures 0 <= Rows.Index(GetRow(r, i / n).value, i % n) < |d|
    ensures Get(d, n, r, i) == Some(Rows.Get(d, GetRow(r, i / n).value, i % n))
  {
    IndexDecode(n, r, i);
  }

  /** The values `getValues` returns: the four rows' values one after the other. */
  function Values<T>(d: seq<T>, n: nat, r: CubeRing): (vs: seq<T>)
    requires InRange(Indices(n, r), |d|)
    ensures |vs| == 4 * n
    ensures forall t :: 0 <= t < 4 * n ==> vs[t] == d[Indices(n, r)[t]]
  {
    Gather(d, Indices(n, r))
  }

  /** The buffer after `setValues(vals)`: entry `m * size + k` written to sticker `k` of row `m`. */
  function Write<T>(d: seq<T>, n: nat, r: CubeRing, vals: seq<T>): (w: seq<T>)
    requires InRange(Indices(n, r), |d|) && 4 * n <= |vals|
    ensures |w| == |d|
  {
    Scatter(d, Indices(n, r), vals[..4 * n])
  }

  /** Through distinct stickers, `setValues` puts entry `t` at position `t` of the ring and
      leaves every other cell alone. */
  lemma WriteAt<T>(d: seq<T>, n: nat, r: CubeRing, vals: seq<T>)
    requires InRange(Indices(n, r), |d|) && Injective(Indices(n, r)) && 4 * n <= |vals|
    ensures forall t :: 0 <= t < 4 * n ==> Write(d, n, r, vals)[Indices(n, r)[t]] == vals[t]
    ensures forall c :: 0 <= c < |d| && c !in Indices(n, r) ==> Write(d, n, r, vals)[c] == d[c]
  {
    ScatterAt(d, Indices(n, r), vals[..4 * n]);
  }

  /** Reading back what was written through distinct stickers gives the values written, and
      writing back what was read changes nothing. */
  lemma RoundTrip<T>(d: seq<T>, n: nat, r: CubeRing, vals: seq<T>)
    requires InRange(Indices(n, r), |d|) && 4 * n <= |vals|
    ensures Write(d, n, r, Values(d, n, r)) == d
    ensures Injective(Indices(n, r)) ==> Values(Write(d, n, r, vals), n, r) == vals[..4 * n]
  {
    assert Values(d, n, r)[..4 * n] == Gather(d, Indices(n, r));
    ScatterGatherUpTo(d, Indices(n, r), 4 * n);
    if Injective(Indices(n, r)) {
      GatherScatter(d, Indices(n, r), vals[..4 * n]);
    }
  }

  /** Writing the ring twice is writing it once. */
  lemma WriteIdempotent<T>(d: seq<T>, n: nat, r: CubeRing, vals: seq<T>)
    requires InRange(Indices(n, r), |d|) && 4 * n <= |vals|
    ensures Write(Write(d, n, r, vals), n, r, vals) == Write(d, n, r, vals)
  {
    ScatterIdempotent(d, Indices(n, r), vals[..4 * n]);
  }

  /** One pass of `setValues`'s loop body (the four rows written in turn) is the ring write. */
  lemma RowsWrite<T>(d: seq<T>, n: nat, r: CubeRing, vals: seq<T>)
    requires InRange(Indices(n, r), |d|) && 4 * n <= |vals|
    ensures InRange(Rows.Indices(n, r.row1), |d|) && InRange(Rows.Indices(n, r.row2), |d|)
    ensures InRange(Rows.Indices(n, r.row3), |d|) && InRange(Rows.Indices(n, r.row4), |d|)
    ensures Rows.Write(Rows.Write(Rows.Write(Rows.Write(d, n, r.row1, vals, 0), n, r.row2, vals, n),
              n, r.row3, vals, 2 * n), n, r.row4, vals, 3 * n) == Write(d, n, r, vals)
  {
    var i1, i2, i3, i4 := Rows.Indices(n, r.row1), Rows.Indices(n, r.row2), Rows.Indices(n, r.row3), Rows.Indices(n, r.row4);
    var v1, v2, v3, v4 := vals[0..n], vals[n..2 * n], vals[2 * n..3 * n], vals[3 * n..4 * n];
    RowsInRange(d, n, r);
    assert vals[..4 * n] == v1 + v2 + v3 + v4;
    ScatterAppend(d, i1, v1, i2, v2);
    ScatterAppend(d, i1 + i2, v1 + v2, i3, v3);
    ScatterAppend(d, i1 + i2 + i3, v1 + v2 + v3, i4, v4);
  }

  /** Each row's stickers are among the ring's. */
  lemma RowsInRange<T>(d: seq<T>, n: nat, r: CubeRing)
    requires InRange(Indices(n, r), |d|)
    ensures InRange(Rows.Indices(n, r.row1), |d|) && InRange(Rows.Indices(n, r.row2), |d|)
    ensures InRange(Rows.Indices(n, r.row3), |d|) && InRange(Rows.Indices(n, r.row4), |d|)
  {
    forall m, k | 0 <= m < 4 && 0 <= k < n
      ensures 0 <= Rows.Index(RowAt(r, m), k) < |d|
    {
      IndexAt(n, r, m, k);
    }
    assert forall k :: 0 <= k < n ==> Rows.Index(RowAt(r, 0), k) == Rows.Indices(n, r.row1)[k];
    assert forall k :: 0 <= k < n ==> Rows.Index(RowAt(r, 1), k) == Rows.Indices(n, r.row2)[k];
    assert forall k :: 0 <= k < n ==> Rows.Index(RowAt(r, 2), k) == Rows.Indices(n, r.row3)[k];
    assert forall k :: 0 <= k < n ==> Rows.Index(RowAt(r, 3), k) == Rows.Indices(n, r.row4)[k];
  }

  /** `getValues()`: the four rows copied into a fresh array of `4 * size` entries. */
  method GetValues(config: CubeConfig, r: CubeRing) returns (res: seq<Int8>)
    requires InRange(Indices(config.size, r), config.data.Length)
    ensures res == Values(config.data[..], config.size, r)
  {
    var n := config.size;
    ghost var vs := Values(config.data[..], n, r);
    var a := new Int8[n * 4];
    var i := 0;
    while i < n
      invariant 0 <= i <= n
      invariant forall t | 0 <= t < 4 * n && Filled(n, i, t) :: a[t] == vs[t]
    {
      RowSlots(config.data[..], n, r, i);
      ghost var prev := a[..];
      a[0 * n + i] := config.data[Rows.Index(r.row1, i)];
      a[1 * n + i] := config.data[Rows.Index(r.row2, i)];
      a[2 * n + i] := config.data[Rows.Index(r.row3, i)];
      a[3 * n + i] := config.data[Rows.Index(r.row4, i)];
      FillStep(prev, a[..], vs, n, i);
      i := i + 1;
    }
    res := a[..];
  }

  /** Filling slot `m * size + i` of each quarter extends the filled part by step `i`. */
  lemma FillStep<T>(prev: seq<T>, next: seq<T>, vs: seq<T>, n: int, i: int)
    requires 0 <= i < n && |prev| == |vs| == 4 * n
    requires forall t | 0 <= t < 4 * n && Filled(n, i, t) :: prev[t] == vs[t]
    requires next == prev[0 * n + i := vs[0 * n + i]][1 * n + i := vs[1 * n + i]][2 * n + i := vs[2 * n + i]][3 * n + i := vs[3 * n + i]]
    ensures forall t | 0 <= t < 4 * n && Filled(n, i + 1, t) :: next[t] == vs[t]
  {
  }

  /** After `i` steps of `getValues`, the first `i` slots of each row's quarter are filled. */
  predicate Filled(n: int, i: int, t: int)
  {
    t < i || n <= t < n + i || 2 * n <= t < 2 * n + i || 3 * n <= t < 3 * n + i
  }

  /** Step `i` of `getValues`: slot `m * size + i` of the ring's values is sticker `i` of row `m`. */
  lemma RowSlots(d: seq<Int8>, n: nat, r: CubeRing, i: int)
    requires InRange(Indices(n, r), |d|) && 0 <= i < n
    ensures 0 <= Rows.Index(r.row1, i) < |d| && Values(d, n, r)[0 * n + i] == d[Rows.Index(r.row1, i)]
    ensures 0 <= Rows.Index(r.row2, i) < |d| && Values(d, n, r)[1 * n + i] == d[Rows.Index(r.row2, i)]
    ensures 0 <= Rows.Index(r.row3, i) < |d| && Values(d, n, r)[2 * n + i] == d[Rows.Index(r.row3, i)]
    ensures 0 <= Rows.Index(r.row4, i) < |d| && Values(d, n, r)[3 * n + i] == d[Rows.Index(r.row4, i)]
  {
    IndexAt(n, r, 0, i);
    IndexAt(n, r, 1, i);
    IndexAt(n, r, 2, i);
    IndexAt(n, r, 3, i);
  }

  /** `setValues(values)`: writes the four rows, and repeats that `size` times. */
  method SetValues(config: CubeConfig, r: CubeRing, values: seq<Int8>)
    requires InRange(Indices(config.size, r), config.data.Length) && 4 * config.size <= |values|
    modifies config.data
    ensures config.size > 0 ==> config.data[..] == Write(old(config.data[..]), config.size, r, values)
    ensures config.size == 0 ==> config.data[..] == old(config.data[..])
  {
    var n := config.size;
    ghost var d0 := config.data[..];
    var i := 0;
    while i < n
      invariant 0 <= i <= n
      invariant i == 0 ==> config.data[..] == d0
      invariant i > 0 ==> config.data[..] == Write(d0, n, r, values)
    {
      ghost var before := config.data[..];
      RowsWrite(before, n, r, values);
      Rows.SetValues(config, r.row1, values, 0 * n);
      Rows.SetValues(config, r.row2, values, 1 * n);
      Rows.SetValues(config, r.row3, values, 2 * n);
      Rows.SetValues(config, r.row4, values, 3 * n);
      if i > 0 {
        WriteIdempotent(d0, n, r, values);
      }
      i := i + 1;
    }
  }

  /** `rotate(angle)`: row `m` of the result is row `(angle + m) % 4` of this ring. */
  function Rotate(r: CubeRing, angle: int): CubeRing
  {
    Shift(r, NormalizeInt(angle, 4))
  }

  /** The rows taken from row `a` on, cyclically, for `a` already reduced to `0 .. 3`. */
  function Shift(r: CubeRing, a: int): CubeRing
  {
    match a
    case 0 => r
    case 1 => CubeRing(r.row2, r.row3, r.row4, r.row1)
    case 2 => CubeRing(r.row3, r.row4, r.row1, r.row2)
    case _ => CubeRing(r.row4, r.row1, r.row2, r.row3)
  }

  lemma RotateRowAt(r: CubeRing, angle: int, m: int)
    requires 0 <= m < 4
    ensures 0 <= NormalizeInt(angle, 4) < 4
    ensures RowAt(Rotate(r, angle), m) == RowAt(r, (NormalizeInt(angle, 4) + m) % 4)
    ensures GetRow(r, (NormalizeInt(angle, 4) + m) % 4) == Success(RowAt(Rotate(r, angle), m))
  {
    var a := NormalizeInt(angle, 4);
    if m == 0 { assert RowAt(Rotate(r, angle), m) == RowAt(r, (a + 0) % 4); }
    else if m == 1 { assert RowAt(Rotate(r, angle), m) == RowAt(r, (a + 1) % 4); }
    else if m == 2 { assert RowAt(Rotate(r, angle), m) == RowAt(r, (a + 2) % 4); }
    else { assert RowAt(Rotate(r, angle), m) == RowAt(r, (a + 3) % 4); }
  }

  /** Turning by 0 keeps the rows. */
  lemma RotateZero(r: CubeRing)
    ensures Rotate(r, 0) == r
  {
    NormalizeIdentity(0, 4);
  }

  /** Turns compose by adding their angles. */
  lemma RotateCompose(r: CubeRing, a: int, b: int)
    ensures Rotate(Rotate(r, a), b) == Rotate(r, a + b)
  {
    ModAdd(a, b);
    ShiftCompose(r, NormalizeInt(a, 4), NormalizeInt(b, 4));
  }

  lemma ShiftCompose(r: CubeRing, a: int, b: int)
    requires 0 <= a < 4 && 0 <= b < 4
    ensures Shift(Shift(r, a), b) == Shift(r, (a + b) % 4)
  {
    var w := Shift(r, a);
    var a1 := if a == 3 then 0 else a + 1;
    var a2 := if a1 == 3 then 0 else a1 + 1;
    ShiftStep(r, a);
    ShiftStep(r, a1);
    ShiftStep(r, a2);
    if b >= 2 {
      ShiftStep(w, 1);
    }
    if b == 3 {
      ShiftStep(w, 2);
    }
  }

  /** One more quarter turn. */
  lemma ShiftStep(r: CubeRing, a: int)
    requires 0 <= a < 4
    ensures Shift(Shift(r, a), 1) == Shift(r, if a == 3 then 0 else a + 1)
  {
  }

  /** The turned ring's position `t` is this ring's position `t + angle * size`, modulo `4 * size`. */
  lemma RotateIndices(n: nat, r: CubeRing, angle: int, t: int)
    requires 0 <= t < 4 * n
    ensures Indices(n, Rotate(r, angle))[t] == Indices(n, r)[(t + NormalizeInt(angle, 4) * n) % (4 * n)]
  {
    var a := NormalizeInt(angle, 4);
    IndexDecode(n, r, t);
    var m, k := t / n, t % n;
    var m' := (a + m) % 4;
    var x := Rows.Index(RowAt(r, m'), k);
    assert Indices(n, Rotate(r, angle))[t] == x by {
      IndexDecode(n, Rotate(r, angle), t);
      RotateRowAt(r, angle, m);
    }
    assert Indices(n, r)[(t + a * n) % (4 * n)] == x by {
      IndexAt(n, r, m', k);
      assert Slot(n, k, m) == t by { SlotDecode(n, t); }
      ShiftSlot(n, k, m, a);
    }
  }

  /** The row whose stickers a turn by `angle` moves into row `m`: `angle` rows back, cyclically. */
  function Behind(m: int, angle: int): (b: int)
    ensures 0 <= b < 4 || !(0 <= m < 4)
  {
    var s := m - NormalizeInt(angle, 4);
    if s < 0 then s + 4 else s
  }

  /** Row `Behind(m, angle)` of the turned ring is row `m` of this ring. */
  lemma RotateBack(r: CubeRing, angle: int, m: int)
    requires 0 <= m < 4
    ensures 0 <= Behind(m, angle) < 4 && RowAt(Rotate(r, angle), Behind(m, angle)) == RowAt(r, m)
  {
    var a := NormalizeInt(angle, 4);
    RotateRowAt(r, angle, Behind(m, angle));
    CycleBack(a, m);
  }

  /** Turning the ring by `-angle` brings row `Behind(m, angle)` to row `m`. */
  lemma RotateBackward(r: CubeRing, angle: int, m: int)
    requires 0 <= m < 4
    ensures 0 <= Behind(m, angle) < 4 && RowAt(Rotate(r, Negated(angle)), m) == RowAt(r, Behind(m, angle))
  {
    RotateRowAt(r, Negated(angle), m);
    NegateNormal(angle);
  }

  lemma NegateNormal(angle: int)
    ensures NormalizeInt(Negated(angle), 4) == if NormalizeInt(angle, 4) == 0 then 0 else 4 - NormalizeInt(angle, 4)
  {
    var q, a := angle / 4, angle % 4;
    assert angle == q * 4 + a;
    if a == 0 {
      assert -angle == (-q) * 4 + 0;
      DivMod(4, 0, -q);
    } else {
      assert -angle == (-q - 1) * 4 + (4 - a);
      DivMod(4, 4 - a, -q - 1);
    }
  }

  lemma CycleBack(a: int, m: int)
    requires 0 <= a < 4 && 0 <= m < 4
    ensures (a + (if m - a < 0 then m - a + 4 else m - a)) % 4 == m
  {
  }

  /** Turning a ring only reorders its rows: the turned ring addresses cells of the buffer, each
      once. */
  lemma RotateValid(n: nat, r: CubeRing, angle: int, len: int)
    requires InRange(Indices(n, r), len) && Injective(Indices(n, r))
    ensures InRange(Indices(n, Rotate(r, angle)), len) && Injective(Indices(n, Rotate(r, angle)))
  {
    var idx, rot := Indices(n, r), Indices(n, Rotate(r, angle));
    forall t | 0 <= t < 4 * n ensures 0 <= rot[t] < len {
      var u := RotatedSlot(n, r, angle, t);
    }
    forall s, t | 0 <= s < 4 * n && 0 <= t < 4 * n && s != t ensures rot[s] != rot[t] {
      var u := RotatedSlot(n, r, angle, s);
      var w := RotatedSlot(n, r, angle, t);
      if u == w {
        SlotDecode(n, s);
        SlotDecode(n, t);
        CycleCancel(NormalizeInt(angle, 4), s / n, t / n);
      }
    }
  }

  lemma CycleCancel(a: int, x: int, y: int)
    requires 0 <= a < 4 && 0 <= x < 4 && 0 <= y < 4 && (a + x) % 4 == (a + y) % 4
    ensures x == y
  {
  }

  /** A cell off the ring is off the turned ring too. */
  lemma RotateOutside(n: nat, r: CubeRing, angle: int, c: int)
    requires c !in Indices(n, r)
    ensures c !in Indices(n, Rotate(r, angle))
  {
    if c in Indices(n, Rotate(r, angle)) {
      var t :| 0 <= t < 4 * n && Indices(n, Rotate(r, angle))[t] == c;
      var u := RotatedSlot(n, r, angle, t);
    }
  }

  /** Position `t` of the turned ring is the position of this ring with the same place in its
      row, `angle` rows further on. */
  lemma RotatedSlot(n: nat, r: CubeRing, angle: int, t: int) returns (u: int)
    requires 0 <= t < 4 * n
    ensures 0 <= u < 4 * n && Indices(n, Rotate(r, angle))[t] == Indices(n, r)[u]
    ensures n > 0 && 0 <= t / n < 4 && u % n == t % n && u / n == (NormalizeInt(angle, 4) + t / n) % 4
  {
    IndexDecode(n, Rotate(r, angle), t);
    var m' := (NormalizeInt(angle, 4) + t / n) % 4;
    RotateRowAt(r, angle, t / n);
    IndexAt(n, r, m', t % n);
    u := Slot(n, t % n, m');
    assert u == m' * n + t % n;
  }

  /** Shifting slot `k` of block `m` by `a` whole blocks, around a cycle of 4 blocks. */
  lemma ShiftSlot(n: nat, k: int, m: int, a: int)
    requires 0 <= k < n && 0 <= m < 4 && 0 <= a < 4
    ensures (Slot(n, k, m) + a * n) % (4 * n) == Slot(n, k, (a + m) % 4)
  {
    var m' := (a + m) % 4;
    var q := (a + m) / 4;
    assert Slot(n, k, m) + a * n == (a + m) * n + k;
    assert a + m == q * 4 + m';
    assert (a + m) * n + k == q * (4 * n) + Slot(n, k, m');
    SlotBound(n, k, m', 4);
    DivMod(4 * n, Slot(n, k, m'), q);
  }
}
