/** Integer helpers of the cube model (src/util/number.ts), and the few facts about
    multiplication, division and remainder that the index arithmetic of the views needs. */
module Numbers {

  function Abs(x: int): nat
  {
    if x < 0 then -x else x
  }

  lemma MulBound(a: int, n: int)
    requires n > 0
    ensures a >= 1 ==> a * n >= n
    ensures a <= -1 ==> a * n <= -n
  {
  }

  lemma MulLe(a: int, b: int, n: int)
    requires a <= b && n >= 0
    ensures a * n <= b * n
  {
    assert b * n - a * n == (b - a) * n;
  }

  /** Euclidean division of `j * n + i` with `0 <= i < n` gives back `j` and `i`. */
  lemma DivMod(n: int, i: int, j: int)
    requires n > 0 && 0 <= i < n
    ensures (j * n + i) / n == j && (j * n + i) % n == i
  {
    var x := j * n + i;
    var q, r := x / n, x % n;
    assert q * n + r == x;
    assert (q - j) * n == i - r;
    MulBound(q - j, n);
  }

  /** Adding a multiple of `n` does not change the remainder. */
  lemma ModMultiple(x: int, k: int, n: int)
    requires n > 0
    ensures (x + k * n) % n == x % n
  {
    DivMod(n, x % n, x / n + k);
    assert x + k * n == (x / n + k) * n + x % n;
  }

  /** The row of a flat `n * n` grid position is below `n`. */
  lemma DivBound(n: int, t: int)
    requires n > 0 && 0 <= t < n * n
    ensures 0 <= t / n < n
  {
    var q := t / n;
    assert q * n + t % n == t;
    MulBound(q - n + 1, n);
  }

  /** `j * n + i`: slot `i` of block `j` when blocks of `n` slots are laid end to end. */
  function Slot(n: int, i: int, j: int): (t: int)
    requires 0 <= i < n && 0 <= j
    ensures 0 <= t && t % n == i && t / n == j
  {
    DivMod(n, i, j);
    j * n + i
  }

  lemma SlotBound(n: int, i: int, j: int, m: int)
    requires 0 <= i < n && 0 <= j < m
    ensures Slot(n, i, j) < m * n
  {
    MulLe(j, m - 1, n);
  }

  /** Every non-negative position is the slot of its remainder in the block of its quotient. */
  lemma SlotDecode(n: int, t: int)
    requires n > 0 && 0 <= t
    ensures 0 <= t % n < n && 0 <= t / n && Slot(n, t % n, t / n) == t
  {
  }

  /** JavaScript's `%`: truncating division, so the remainder takes the sign of the dividend. */
  function JsRem(i: int, n: int): (r: int)
    requires n != 0
    ensures Abs(r) < Abs(n)
    ensures i >= 0 ==> r >= 0
    ensures i <= 0 ==> r <= 0
  {
    if i >= 0 then i % Abs(n) else -((-i) % Abs(n))
  }

  lemma JsRemCongruent(i: int, n: int)
    requires n > 0
    ensures (JsRem(i, n) - i) % n == 0
  {
    var a := if i >= 0 then i else -i;
    var q := a / n;
    assert a == q * n + a % n;
    if i >= 0 {
      assert JsRem(i, n) - i == 0 + (-q) * n;
      ModMultiple(0, -q, n);
    } else {
      assert JsRem(i, n) - i == 0 + q * n;
      ModMultiple(0, q, n);
    }
  }

  /** Two representatives in `[0, n)` of the same residue class are equal. */
  lemma EuclidUnique(i: int, n: int, diff: int, r: int)
    requires n > 0 && 0 <= r < n
    requires diff % n == 0
    requires r == i + diff || r == i + diff + n
    ensures r == i % n
  {
    var k := diff / n;
    DivExact(diff, n);
    var e := if r == i + diff then k else k + 1;
    assert r == i + e * n by {
      if r != i + diff { MulAdd(k, 1, n); }
    }
    var q := i / n;
    ShiftQuotient(i, n, e, r, q);
    SlotUnique(n, i % n, q + e, r);
  }

  lemma MulAdd(a: int, b: int, n: int)
    ensures (a + b) * n == a * n + b * n
  {
  }

  lemma DivExact(x: int, n: int)
    requires n > 0 && x % n == 0
    ensures x == x / n * n
  {
    assert x == x / n * n + x % n;
  }

  lemma ShiftQuotient(i: int, n: int, e: int, r: int, q: int)
    requires n > 0 && r == i + e * n && q == i / n
    ensures r == (q + e) * n + i % n
  {
    assert i == q * n + i % n;
    MulAdd(q, e, n);
  }

  /** A value in `[0, n)` written as `q * n + x` with `x` in `[0, n)` is `x`. */
  lemma SlotUnique(n: int, x: int, q: int, r: int)
    requires n > 0 && 0 <= r < n && 0 <= x < n && r == q * n + x
    ensures r == x
  {
    DivMod(n, x, q);
  }

  /** `normalizeInt(i, N)`: `i %= N`, then add `N` to a negative remainder. For a positive
      modulus this is the mathematical (Euclidean) remainder. */
  function NormalizeInt(i: int, n: int): (r: int)
    requires n != 0
    ensures n > 0 ==> 0 <= r < n && r == i % n
  {
    var m := JsRem(i, n);
    var r := if m < 0 then m + n else m;
    if n > 0 then JsRemCongruent(i, n); EuclidUnique(i, n, m - i, r); r else r
  }

  /** `-angle`: the opposite turn. */
  function Negated(angle: int): int
  {
    -angle
  }

  lemma NormalizeIdentity(i: int, n: int)
    requires 0 <= i < n
    ensures NormalizeInt(i, n) == i
  {
    DivMod(n, i, 0);
    assert 0 * n + i == i;
  }

  lemma NormalizeIdempotent(i: int, n: int)
    requires n > 0
    ensures NormalizeInt(NormalizeInt(i, n), n) == NormalizeInt(i, n)
  {
    NormalizeIdentity(NormalizeInt(i, n), n);
  }

  lemma NormalizeCongruent(i: int, n: int)
    requires n > 0
    ensures (NormalizeInt(i, n) - i) % n == 0
  {
    var q := i / n;
    assert i == q * n + i % n;
    assert NormalizeInt(i, n) - i == (-q) * n + 0;
    DivMod(n, 0, -q);
  }

  /** One more quarter turn: the normalised angle steps round `0, 1, 2, 3`. */
  lemma NormalizeSucc(a: int, s: int)
    requires s == a + 1
    ensures NormalizeInt(s, 4) == if NormalizeInt(a, 4) == 3 then 0 else NormalizeInt(a, 4) + 1
  {
    var q, r := a / 4, a % 4;
    assert a == q * 4 + r;
    if r == 3 {
      assert s == (q + 1) * 4 + 0;
      DivMod(4, 0, q + 1);
    } else {
      assert s == q * 4 + (r + 1);
      DivMod(4, r + 1, q);
    }
  }

  /** Normalising one summand first does not change the normalised sum. */
  lemma NormalizeAdd(a: int, b: int, s: int)
    requires s == a + NormalizeInt(b, 4)
    ensures NormalizeInt(s, 4) == NormalizeInt(a + b, 4)
  {
    ModMultiple(a + b, -(b / 4), 4);
    assert a + b + -(b / 4) * 4 == a + b % 4;
  }
}
