/** The sticker buffer of a cube of side `size`: `6 * size * size` signed bytes, face `f`
    occupying the block starting at `size * size * f`, the sticker in column `x` and row `y` of
    that block at offset `x + y * size`. Colour `c` is the colour that face `c` has when solved. */
module Config {
  import opened Numbers
  import opened Faces

  /** One element of an `Int8Array`. */
  newtype Int8 = x: int | -128 <= x < 128

  /** Position of the sticker in column `x`, row `y` of face `f`. */
  function Cell(n: int, f: int, x: int, y: int): int
  {
    n * n * f + x + y * n
  }

  lemma CellBounds(n: int, f: int, x: int, y: int)
    requires 0 <= x < n && 0 <= y < n
    ensures n * n * f <= Cell(n, f, x, y) < n * n * f + n * n
  {
    assert y * n <= (n - 1) * n by { MulLe(y, n - 1, n); }
  }

  /** Distinct (face, column, row) triples name distinct stickers. */
  lemma CellInjective(n: int, f: int, x: int, y: int, g: int, u: int, v: int)
    requires 0 <= x < n && 0 <= y < n && 0 <= u < n && 0 <= v < n
    requires Cell(n, f, x, y) == Cell(n, g, u, v)
    ensures f == g && x == u && y == v
  {
    CellAsSlot(n, f, x, y);
    CellAsSlot(n, g, u, v);
    SlotsEqual(n, f * n + y, x, g * n + v, u);
    SlotsEqual(n, f, y, g, v);
  }

  lemma CellAsSlot(n: int, f: int, x: int, y: int)
    ensures Cell(n, f, x, y) == (f * n + y) * n + x
  {
    assert n * n * f == (f * n) * n;
    MulAdd(f * n, y, n);
  }

  lemma SlotsEqual(n: int, a: int, x: int, b: int, u: int)
    requires 0 <= x < n && 0 <= u < n && a * n + x == b * n + u
    ensures a == b && x == u
  {
    DivMod(n, x, a);
    DivMod(n, u, b);
  }

  /** Every position of the buffer is the sticker of exactly one (face, column, row). */
  lemma CellDecode(n: int, c: int)
    requires n > 0 && 0 <= c < 6 * n * n
    ensures 0 <= c / (n * n) < 6 && 0 <= c % (n * n) % n < n && 0 <= c % (n * n) / n < n
    ensures c == Cell(n, c / (n * n), c % (n * n) % n, c % (n * n) / n)
  {
    var p := n * n;
    var f, q := c / p, c % p;
    assert c == f * p + q;
    assert 0 <= f < 6 by {
      if f >= 6 { MulLe(6, f, p); }
      if f < 0 { MulLe(f, -1, p); }
    }
    DivBound(n, q);
    assert q == q / n * n + q % n;
  }

  /** The cells of the block of face `f`. */
  predicate InBlock(n: int, f: int, c: int)
  {
    n * n * f <= c < n * n * f + n * n
  }

  /** The blocks of distinct faces do not overlap. */
  lemma BlocksDisjoint(n: int, f: int, g: int, c: int)
    requires InBlock(n, f, c) && InBlock(n, g, c)
    ensures f == g
  {
    if f < g { MulLe(f + 1, g, n * n); }
    if g < f { MulLe(g + 1, f, n * n); }
  }

  /** Face blocks end inside the buffer. */
  lemma BlockEnd(n: int, f: Face)
    ensures 0 <= n * n * f && n * n * f + n * n <= 6 * n * n
  {
    MulLe(0, f, n * n);
    MulLe(f + 1, 6, n * n);
  }

  /** Column and row, on face `f`, of a cell of that face's block. */
  function BlockPos(n: nat, f: Face, c: int): (p: (int, int))
    requires InBlock(n, f, c)
    ensures 0 <= p.0 < n && 0 <= p.1 < n && c == Cell(n, f, p.0, p.1)
  {
    BlockDecode(n, f, c);
    ((c - n * n * f) % n, (c - n * n * f) / n)
  }

  lemma BlockDecode(n: nat, f: Face, c: int)
    requires InBlock(n, f, c)
    ensures n > 0
    ensures var r := c - n * n * f; 0 <= r % n < n && 0 <= r / n < n && c == Cell(n, f, r % n, r / n)
  {
    var r := c - n * n * f;
    assert 0 <= r < n * n;
    SlotDecode(n, r);
    DivBound(n, r);
    assert (r / n) * n + r % n == r;
  }

  /** The sticker in column `x`, row `y` of face `f` is a cell of that face's block. */
  lemma CellInBlock(n: int, f: Face, x: int, y: int)
    requires 0 <= x < n && 0 <= y < n
    ensures InBlock(n, f, Cell(n, f, x, y)) && 0 <= Cell(n, f, x, y) < 6 * n * n
  {
    CellBounds(n, f, x, y);
    BlockEnd(n, f);
  }

  /** Sticker `p` (in `0 .. size * size`) of face `f`. */
  function Sticker(d: seq<Int8>, n: nat, f: int, p: int): Int8
    requires |d| == 6 * n * n && 0 <= f < 6 && 0 <= p < n * n
  {
    MulLe(f, 5, n * n);
    d[n * n * f + p]
  }

  /** Every face shows a single colour. */
  predicate IsSolvedData(n: nat, d: seq<Int8>)
    requires |d| == 6 * n * n
  {
    forall f, p | 0 <= f < 6 && 0 <= p < n * n :: Sticker(d, n, f, p) == Sticker(d, n, f, 0)
  }

  /** The buffer of a fresh cube: every sticker of face `f` has colour `f`. */
  function SolvedData(n: nat): (d: seq<Int8>)
    ensures |d| == 6 * n * n
    ensures forall f, p | 0 <= f < 6 && 0 <= p < n * n :: Sticker(d, n, f, p) == f as Int8
  {
    var d := seq(6 * n * n, c requires 0 <= c < 6 * n * n => SolvedColor(n, c));
    forall f, p | 0 <= f < 6 && 0 <= p < n * n
      ensures Sticker(d, n, f, p) == f as Int8
    {
      SolvedColorAt(n, f, p);
    }
    d
  }

  /** `Math.floor(c / (size * size))`, the face that position `c` lies on. */
  function SolvedColor(n: nat, c: int): (k: Int8)
    requires 0 <= c < 6 * n * n
  {
    CellDecode(n, c);
    (c / (n * n)) as Int8
  }

  lemma SolvedColorAt(n: nat, f: int, p: int)
    requires 0 <= f < 6 && 0 <= p < n * n
    ensures 0 <= n * n * f + p < 6 * n * n
    ensures SolvedColor(n, n * n * f + p) == f as Int8
  {
    MulLe(f, 5, n * n);
    DivMod(n * n, p, f);
  }

  lemma SolvedDataIsSolved(n: nat)
    ensures IsSolvedData(n, SolvedData(n))
  {
  }

  class CubeConfig {
    const size: nat
    const data: array<Int8>

    /** The buffer holds exactly the stickers of a cube of this size. */
    predicate Valid()
      reads this
    {
      data.Length == 6 * size * size
    }

    /** A solved cube. */
    constructor (size: nat)
      ensures this.size == size && Valid() && fresh(data)
      ensures data[..] == SolvedData(size)
    {
      var a := new Int8[6 * size * size];
      var i := 0;
      while i < a.Length
        invariant 0 <= i <= a.Length
        invariant forall c :: 0 <= c < i ==> a[c] == SolvedColor(size, c)
      {
        a[i] := SolvedColor(size, i);
        i := i + 1;
      }
      this.size := size;
      this.data := a;
    }

    /** A cube holding a copy of `source`. */
    constructor WithData(size: nat, source: array<Int8>)
      ensures this.size == size && fresh(data)
      ensures data[..] == source[..]
    {
      var a := new Int8[source.Length];
      forall c | 0 <= c < source.Length {
        a[c] := source[c];
      }
      this.size := size;
      this.data := a;
    }

    /** A cube of the same size holding a copy of the stickers, sharing nothing with this one. */
    method Clone() returns (c: CubeConfig)
      ensures fresh(c) && fresh(c.data)
      ensures c.size == size && c.data[..] == data[..]
    {
      c := new CubeConfig.WithData(size, data);
    }

    /** Whether every face shows one colour, comparing each sticker with the first of its face. */
    method IsSolved() returns (b: bool)
      requires Valid()
      ensures b == IsSolvedData(size, data[..])
    {
      var pitch := size * size;
      var o := 0;
      ghost var f := 0;
      ghost var d := data[..];
      assert data.Length == 6 * pitch;
      while o < 6 * pitch
        invariant 0 <= f <= 6 && o == pitch * f
        invariant pitch > 0 || f == 0
        invariant forall g, p | 0 <= g < f && 0 <= p < pitch :: Sticker(d, size, g, p) == Sticker(d, size, g, 0)
      {
        assert f < 6 by {
          if f >= 6 { MulLe(6, f, pitch); }
        }
        MulLe(f + 1, 6, pitch);
        var i := 1;
        while i < pitch
          invariant 1 <= i <= pitch
          invariant forall p | 0 <= p < i :: Sticker(d, size, f, p) == Sticker(d, size, f, 0)
        {
          if data[o + i] != data[o] {
            StickerAt(d, size, f, i);
            return false;
          }
          StickerAt(d, size, f, i);
          i := i + 1;
        }
        o := o + pitch;
        f := f + 1;
      }
      if pitch > 0 {
        assert f == 6 by {
          if f < 6 { MulLe(f + 1, 6, pitch); }
        }
      }
      return true;
    }
  }

  lemma StickerAt(d: seq<Int8>, n: nat, f: int, p: int)
    requires |d| == 6 * n * n && 0 <= f < 6 && 0 <= p < n * n
    ensures Sticker(d, n, f, p) == d[n * n * f + p] && Sticker(d, n, f, 0) == d[n * n * f]
  {
  }
}
