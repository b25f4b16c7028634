/** Index-list tools shared by every view of the sticker buffer: reading the values at a list
    of positions, writing values back through a list of positions (in list order, the way the
    views' loops do), rearranging a buffer by a list of source positions, and the quarter-turn
    map of an `n` by `n` grid. */
module Permutations {
  import opened Numbers

  predicate InRange(idx: seq<int>, len: int)
  {
    forall t :: 0 <= t < |idx| ==> 0 <= idx[t] < len
  }

  predicate Injective(idx: seq<int>)
  {
    forall s, t :: 0 <= s < |idx| && 0 <= t < |idx| && s != t ==> idx[s] != idx[t]
  }

  /** The values of `d` at the positions `idx`, in order. */
  function Gather<T>(d: seq<T>, idx: seq<int>): (r: seq<T>)
    requires InRange(idx, |d|)
    ensures |r| == |idx|
    ensures forall t :: 0 <= t < |idx| ==> r[t] == d[idx[t]]
  {
    seq(|idx|, t requires 0 <= t < |idx| => d[idx[t]])
  }

  /** `d` after writing `vals[t]` to position `idx[t]` for `t = 0, 1, ..., k - 1`, in that order. */
  function ScatterUpTo<T>(d: seq<T>, idx: seq<int>, vals: seq<T>, k: nat): (r: seq<T>)
    requires InRange(idx, |d|) && k <= |idx| <= |vals|
    ensures |r| == |d|
  {
    if k == 0 then d else ScatterUpTo(d, idx, vals, k - 1)[idx[k - 1] := vals[k - 1]]
  }

  /** One more write of the scatter. */
  lemma ScatterNext<T>(d: seq<T>, idx: seq<int>, vals: seq<T>, k: nat, cur: seq<T>, x: int, val: T)
    requires InRange(idx, |d|) && k < |idx| <= |vals| && cur == ScatterUpTo(d, idx, vals, k)
    requires idx[k] == x && vals[k] == val
    ensures 0 <= x < |cur| && cur[x := val] == ScatterUpTo(d, idx, vals, k + 1)
  {
  }

  function Scatter<T>(d: seq<T>, idx: seq<int>, vals: seq<T>): (r: seq<T>)
    requires InRange(idx, |d|) && |idx| <= |vals|
    ensures |r| == |d|
  {
    ScatterUpTo(d, idx, vals, |idx|)
  }

  /** Through distinct positions, every position written holds its value and every other
      position keeps the old one. */
  lemma {:induction false} ScatterUpToAt<T>(d: seq<T>, idx: seq<int>, vals: seq<T>, k: nat)
    requires InRange(idx, |d|) && Injective(idx) && k <= |idx| <= |vals|
    ensures forall t :: 0 <= t < k ==> ScatterUpTo(d, idx, vals, k)[idx[t]] == vals[t]
    ensures forall c :: 0 <= c < |d| && (forall t :: 0 <= t < k ==> idx[t] != c) ==>
              ScatterUpTo(d, idx, vals, k)[c] == d[c]
  {
    if k > 0 {
      ScatterUpToAt(d, idx, vals, k - 1);
    }
  }

  lemma ScatterAt<T>(d: seq<T>, idx: seq<int>, vals: seq<T>)
    requires InRange(idx, |d|) && Injective(idx) && |idx| <= |vals|
    ensures forall t :: 0 <= t < |idx| ==> Scatter(d, idx, vals)[idx[t]] == vals[t]
    ensures forall c :: 0 <= c < |d| && c !in idx ==> Scatter(d, idx, vals)[c] == d[c]
  {
    ScatterUpToAt(d, idx, vals, |idx|);
  }

  /** Writing back the values just read changes nothing, even through repeated positions. */
  lemma {:induction false} ScatterGatherUpTo<T>(d: seq<T>, idx: seq<int>, k: nat)
    requires InRange(idx, |d|) && k <= |idx|
    ensures ScatterUpTo(d, idx, Gather(d, idx), k) == d
  {
    if k > 0 {
      ScatterGatherUpTo(d, idx, k - 1);
    }
  }

  /** Reading back what was just written through distinct positions gives the values written. */
  lemma GatherScatter<T>(d: seq<T>, idx: seq<int>, vals: seq<T>)
    requires InRange(idx, |d|) && Injective(idx) && |idx| <= |vals|
    ensures Gather(Scatter(d, idx, vals), idx) == vals[..|idx|]
  {
    ScatterAt(d, idx, vals);
  }

  /** Positions the writes never name keep their old value, even through repeated positions. */
  lemma {:induction false} ScatterUpToOutside<T>(d: seq<T>, idx: seq<int>, vals: seq<T>, k: nat, c: int)
    requires InRange(idx, |d|) && k <= |idx| <= |vals| && 0 <= c < |d|
    requires forall t :: 0 <= t < k ==> idx[t] != c
    ensures ScatterUpTo(d, idx, vals, k)[c] == d[c]
  {
    if k > 0 {
      ScatterUpToOutside(d, idx, vals, k - 1, c);
    }
  }

  /** A position the writes name ends up with the same value whatever the buffer held before. */
  lemma {:induction false} ScatterUpToAgree<T>(d1: seq<T>, d2: seq<T>, idx: seq<int>, vals: seq<T>, k: nat, t: int)
    requires |d1| == |d2| && InRange(idx, |d1|) && k <= |idx| <= |vals| && 0 <= t < k
    ensures ScatterUpTo(d1, idx, vals, k)[idx[t]] == ScatterUpTo(d2, idx, vals, k)[idx[t]]
  {
    if idx[k - 1] != idx[t] {
      ScatterUpToAgree(d1, d2, idx, vals, k - 1, t);
    }
  }

  /** Writing the same values through the same positions twice is writing them once. */
  lemma ScatterIdempotent<T>(d: seq<T>, idx: seq<int>, vals: seq<T>)
    requires InRange(idx, |d|) && |idx| <= |vals|
    ensures Scatter(Scatter(d, idx, vals), idx, vals) == Scatter(d, idx, vals)
  {
    var w := Scatter(d, idx, vals);
    forall c | 0 <= c < |d| ensures Scatter(w, idx, vals)[c] == w[c] {
      if t :| 0 <= t < |idx| && idx[t] == c {
        ScatterUpToAgree(w, d, idx, vals, |idx|, t);
      } else {
        ScatterUpToOutside(w, idx, vals, |idx|, c);
      }
    }
  }

  /** Writing through `i1 ++ i2` is writing through `i1`, then through `i2`. */
  lemma {:induction false} ScatterConcat<T>(d: seq<T>, i1: seq<int>, v1: seq<T>, i2: seq<int>, v2: seq<T>, k: nat)
    requires InRange(i1, |d|) && InRange(i2, |d|) && |i1| == |v1| && k <= |i2| <= |v2|
    ensures ScatterUpTo(d, i1 + i2, v1 + v2, |i1| + k) == ScatterUpTo(Scatter(d, i1, v1), i2, v2, k)
  {
    if k == 0 {
      assert ScatterUpTo(d, i1 + i2, v1 + v2, |i1|) == ScatterUpTo(d, i1, v1, |i1|) by {
        PrefixScatter(d, i1, v1, i2, v2, |i1|);
      }
    } else {
      ScatterConcat(d, i1, v1, i2, v2, k - 1);
      assert (i1 + i2)[|i1| + k - 1] == i2[k - 1];
      assert (v1 + v2)[|i1| + k - 1] == v2[k - 1];
    }
  }

  /** Writing `v1 ++ v2` through `i1 ++ i2` is writing `v1` through `i1`, then `v2` through `i2`. */
  lemma ScatterAppend<T>(d: seq<T>, i1: seq<int>, v1: seq<T>, i2: seq<int>, v2: seq<T>)
    requires InRange(i1, |d|) && InRange(i2, |d|) && |i1| == |v1| && |i2| == |v2|
    ensures InRange(i1 + i2, |d|)
    ensures Scatter(d, i1 + i2, v1 + v2) == Scatter(Scatter(d, i1, v1), i2, v2)
  {
    ScatterConcat(d, i1, v1, i2, v2, |i2|);
  }

  lemma {:induction false} PrefixScatter<T>(d: seq<T>, i1: seq<int>, v1: seq<T>, i2: seq<int>, v2: seq<T>, k: nat)
    requires InRange(i1, |d|) && InRange(i2, |d|) && |i1| == |v1| && |i2| <= |v2| && k <= |i1|
    ensures ScatterUpTo(d, i1 + i2, v1 + v2, k) == ScatterUpTo(d, i1, v1, k)
  {
    if k > 0 {
      PrefixScatter(d, i1, v1, i2, v2, k - 1);
    }
  }

  /** A full-length list of positions with an inverse list is a bijection of the buffer. */
  predicate Bijection(sigma: seq<int>, tau: seq<int>, len: int)
  {
    |sigma| == len && |tau| == len && InRange(sigma, len) && InRange(tau, len) &&
    (forall c :: 0 <= c < len ==> tau[sigma[c]] == c) &&
    (forall c :: 0 <= c < len ==> sigma[tau[c]] == c)
  }

  /** Rearranging a buffer by a bijection keeps the multiset of its values. */
  lemma {:induction false} GatherBijectionMultiset<T>(d: seq<T>, sigma: seq<int>, tau: seq<int>)
    requires Bijection(sigma, tau, |d|)
    ensures multiset(Gather(d, sigma)) == multiset(d)
  {
    var len := |d|;
    if len > 0 {
      var last := len - 1;
      var j := tau[last];
      var e := Gather(d, sigma);
      var sigma', tau' := DropSigma(sigma, tau), DropTau(sigma, tau);
      BijectionDrop(sigma, tau);
      GatherBijectionMultiset(d[..last], sigma', tau');
      GatherDrop(d, sigma, tau);
      SwapDropMultiset(e, j);
      assert e[j] == d[last];
      assert d == d[..last] + [d[last]];
    }
  }

  /** Gathering the shortened buffer by the shortened bijection is the gathered buffer with
      entry `j` replaced by the last entry, and the last entry dropped. */
  lemma GatherDrop<T>(d: seq<T>, sigma: seq<int>, tau: seq<int>)
    requires |d| > 0 && Bijection(sigma, tau, |d|)
    ensures Bijection(DropSigma(sigma, tau), DropTau(sigma, tau), |d| - 1)
    ensures Gather(d[..|d| - 1], DropSigma(sigma, tau)) == Gather(d, sigma)[tau[|d| - 1] := Gather(d, sigma)[|d| - 1]][..|d| - 1]
  {
    BijectionDrop(sigma, tau);
  }

  /** The bijection on `len - 1` positions left when the last position and its preimage are
      taken out: the preimage `j` of the last position takes over the image of the last one. */
  function DropSigma(sigma: seq<int>, tau: seq<int>): seq<int>
    requires |sigma| > 0 && Bijection(sigma, tau, |sigma|)
  {
    var last := |sigma| - 1;
    var j := tau[last];
    seq(last, c requires 0 <= c < last => if c == j then sigma[last] else sigma[c])
  }

  function DropTau(sigma: seq<int>, tau: seq<int>): seq<int>
    requires |sigma| > 0 && Bijection(sigma, tau, |sigma|)
  {
    var last := |sigma| - 1;
    var j := tau[last];
    seq(last, v requires 0 <= v < last => if tau[v] == last then j else tau[v])
  }

  lemma BijectionDrop(sigma: seq<int>, tau: seq<int>)
    requires |sigma| > 0 && Bijection(sigma, tau, |sigma|)
    ensures Bijection(DropSigma(sigma, tau), DropTau(sigma, tau), |sigma| - 1)
  {
    var last := |sigma| - 1;
    var j := tau[last];
    var sigma', tau' := DropSigma(sigma, tau), DropTau(sigma, tau);
    forall c | 0 <= c < last ensures 0 <= sigma'[c] < last {
      if c == j {
        assert tau[sigma[last]] == last;
      } else {
        assert tau[sigma[c]] == c;
      }
    }
    forall v | 0 <= v < last ensures 0 <= tau'[v] < last {
      assert sigma[tau[v]] == v && sigma[tau[last]] == last;
    }
    forall c | 0 <= c < last ensures tau'[sigma'[c]] == c {
      if c == j {
        assert tau[sigma[last]] == last;
      } else {
        assert tau[sigma[c]] == c;
      }
    }
    forall v | 0 <= v < last ensures sigma'[tau'[v]] == v {
      assert sigma[tau[v]] == v && sigma[tau[last]] == last;
    }
  }

  /** Moving the last element into slot `j` and dropping the last slot loses exactly `e[j]`. */
  lemma SwapDropMultiset<T>(e: seq<T>, j: int)
    requires 0 <= j < |e|
    ensures multiset(e) == multiset(e[j := e[|e| - 1]][..|e| - 1]) + multiset{e[j]}
  {
    var last := |e| - 1;
    var f := e[j := e[last]];
    if j == last {
      assert e == e[..last] + [e[last]];
    } else {
      assert f == f[..last] + [e[last]];
      assert multiset(f) == multiset(e) - multiset{e[j]} + multiset{e[last]};
    }
  }

  /** The identity list of positions `0, 1, ..., len - 1`. */
  function Identity(len: nat): (r: seq<int>)
    ensures |r| == len && forall c :: 0 <= c < len ==> r[c] == c
  {
    seq(len, c => c)
  }

  /** Quarter turns of an `n` by `n` grid: the cell that `Rot(n, k, x, y)` names moves to
      `(x, y)` when the grid turns `k` quarter turns. */
  function Rot(n: int, k: int, x: int, y: int): (int, int)
  {
    match k % 4
    case 0 => (x, y)
    case 1 => (n - 1 - y, x)
    case 2 => (n - 1 - x, n - 1 - y)
    case _ => (y, n - 1 - x)
  }

  lemma RotInRange(n: int, k: int, x: int, y: int)
    requires 0 <= x < n && 0 <= y < n
    ensures 0 <= Rot(n, k, x, y).0 < n && 0 <= Rot(n, k, x, y).1 < n
  {
  }

  /** Quarter turns compose by adding their counts modulo 4. */
  lemma RotCompose(n: int, a: int, b: int, x: int, y: int)
    ensures Rot(n, a, Rot(n, b, x, y).0, Rot(n, b, x, y).1) == Rot(n, a + b, x, y)
  {
    ModAdd(a, b);
  }

  lemma ModAdd(a: int, b: int)
    ensures (a + b) % 4 == (a % 4 + b % 4) % 4
  {
    ModMultiple(a % 4 + b % 4, a / 4 + b / 4, 4);
    assert a + b == (a % 4 + b % 4) + (a / 4 + b / 4) * 4;
  }
}
