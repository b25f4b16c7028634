// The lexicographic chooser: keeps the first candidate with the smallest weight vector.
module Best {
  import opened Wrappers

  /** A weight component: a number, or the infinity a fresh chooser starts from. */
  datatype Weight = Finite(value: int) | Infinite

  predicate Below(a: Weight, b: Weight)
  {
    a.Finite? && (b.Infinite? || a.value < b.value)
  }

  function Lift(w: seq<int>): (r: seq<Weight>)
    ensures |r| == |w| && forall k :: 0 <= k < |w| ==> r[k] == Finite(w[k])
  {
    seq(|w|, k requires 0 <= k < |w| => Finite(w[k]))
  }

  /** Whether `w` beats the stored weight `c`: at the first component where they differ, `w`
      is smaller, or `w` runs out first. A vector that agrees with all of `c` does not beat it. */
  predicate Beats(w: seq<int>, c: seq<Weight>)
  {
    |c| > 0 && (|w| == 0 || Below(Finite(w[0]), c[0]) || (Finite(w[0]) == c[0] && Beats(w[1..], c[1..])))
  }

  /** `w` and `c` agree on their first `i` components. */
  predicate AgreeUpTo(w: seq<int>, c: seq<Weight>, i: int)
  {
    0 <= i <= |w| && i <= |c| && forall k :: 0 <= k < i ==> Finite(w[k]) == c[k]
  }

  class Best<T> {
    var value: Option<T>
    var weight: seq<Weight>

    /** `new Best(...weight)`: nothing chosen yet; the threshold is the given vector, or
        `[Infinity]` when none is given. */
    constructor (w: seq<int>)
      ensures value == None
      ensures weight == if |w| > 0 then Lift(w) else [Infinite]
    {
      value := None;
      weight := if |w| > 0 then Lift(w) else [Infinite];
    }

    /** `consider(option, ...weight)`: walks the stored vector; takes the candidate at the first
        smaller component (or when the candidate runs out), and stops at the first larger one.
        After taking it, the loop goes on over the candidate's own vector, which changes nothing. */
    method Consider(option: T, w: seq<int>)
      modifies this
      ensures Beats(w, old(weight)) ==> value == Some(option) && weight == Lift(w)
      ensures !Beats(w, old(weight)) ==> value == old(value) && weight == old(weight)
    {
      ghost var taken := false;
      var i := 0;
      while i < |weight|
        invariant 0 <= i
        invariant !taken ==> value == old(value) && weight == old(weight) && AgreeUpTo(w, weight, i)
        invariant taken ==> value == Some(option) && weight == Lift(w) && Beats(w, old(weight))
        decreases if taken then 0 else 1, |weight| - i
      {
        if i >= |w| || Below(Finite(w[i]), weight[i]) {
          if !taken {
            BeatsAt(w, weight, i);
          }
          value := Some(option);
          weight := Lift(w);
          taken := true;
        } else if Below(weight[i], Finite(w[i])) {
          if !taken {
            LosesAt(w, weight, i);
          }
          return;
        }
        i := i + 1;
      }
      if !taken {
        AgreeingLoses(w, weight);
      }
    }

    /** `getWeight(i)`: component `i` of the best weight so far, if there is one. */
    function GetWeight(i: int): (r: Option<Weight>)
      reads this
      ensures r.Some? <==> 0 <= i < |weight|
      ensures r.Some? ==> r.value == weight[i]
    {
      if 0 <= i < |weight| then Some(weight[i]) else None
    }
  }

  // The order `consider` decides by.

  /** Agreeing on a prefix, then smaller or shorter: the candidate beats. */
  lemma {:induction false} BeatsAt(w: seq<int>, c: seq<Weight>, i: int)
    requires AgreeUpTo(w, c, i) && i < |c|
    requires i == |w| || Below(Finite(w[i]), c[i])
    ensures Beats(w, c)
    decreases i
  {
    if i > 0 {
      BeatsAt(w[1..], c[1..], i - 1);
    }
  }

  /** Agreeing on a prefix, then larger: the candidate does not beat. */
  lemma {:induction false} LosesAt(w: seq<int>, c: seq<Weight>, i: int)
    requires AgreeUpTo(w, c, i) && i < |w| && i < |c|
    requires Below(c[i], Finite(w[i]))
    ensures !Beats(w, c)
    decreases i
  {
    if i > 0 {
      LosesAt(w[1..], c[1..], i - 1);
    }
  }

  /** Agreeing with the whole stored vector: the candidate does not beat. */
  lemma {:induction false} AgreeingLoses(w: seq<int>, c: seq<Weight>)
    requires AgreeUpTo(w, c, |c|)
    ensures !Beats(w, c)
    decreases |c|
  {
    if |c| > 0 {
      AgreeingLoses(w[1..], c[1..]);
    }
  }

  /** Nothing beats itself: the first of equal candidates is kept. */
  lemma {:induction false} BeatsIrreflexive(w: seq<int>)
    ensures !Beats(w, Lift(w))
  {
    AgreeingLoses(w, Lift(w));
  }

  /** Any candidate beats the fresh threshold `[Infinity]`. */
  lemma BeatsInfinity(w: seq<int>)
    ensures Beats(w, [Infinite])
  {
  }

  /** A proper prefix of the stored vector beats it. */
  lemma PrefixBeats(w: seq<int>, c: seq<int>)
    requires |w| < |c| && w == c[..|w|]
    ensures Beats(w, Lift(c))
  {
    BeatsAt(w, Lift(c), |w|);
  }

  /** The order is a strict one: it never goes both ways. */
  lemma {:induction false} BeatsAsymmetric(w: seq<int>, c: seq<int>)
    requires Beats(w, Lift(c))
    ensures !Beats(c, Lift(w))
    decreases |c|
  {
    if |w| > 0 && w[0] == c[0] {
      assert Lift(c)[1..] == Lift(c[1..]);
      assert Lift(w)[1..] == Lift(w[1..]);
      BeatsAsymmetric(w[1..], c[1..]);
    }
  }
}
