// The legacy cube's move record (src/cube/action.ts): a slice and a quarter-turn count.

module LegacyActions {
  import opened Numbers
  import opened Wrappers
  import opened LegacyConfig

  /** `CubeAction`: the slice to turn and by how many quarter turns. */
  datatype CubeAction = CubeAction(slice: CubeSlice, angle: int)

  /** `invert()`: the same slice turned the opposite way. */
  function Invert(a: CubeAction): (r: CubeAction)
    ensures r.slice == a.slice && r.angle + a.angle == 0
  {
    CubeAction(a.slice, Negated(a.angle))
  }

  /** Inverting twice gives back the move. */
  lemma InvertTwice(a: CubeAction)
    ensures Invert(Invert(a)) == a
  {
  }

  /** A move the legacy cube can make without throwing: a whole number of turns, or a valid axis. */
  predicate Applicable(a: CubeAction)
  {
    NormalizeInt(a.angle, 4) == 0 || ValidAxis(a.slice.axis)
  }

  /** `config.adjust(slice, angle)` succeeds exactly on applicable moves. */
  lemma ApplicableSucceeds(d: seq<int>, a: CubeAction)
    requires Fits(a.slice.dim, a.slice) && |d| == 6 * a.slice.dim * a.slice.dim
    ensures Adjusted(d, a.slice, a.angle).Success? <==> Applicable(a)
  {
    AdjustFails(d, a.slice, a.angle);
  }

  /** The inverse of a move is applicable exactly when the move is. */
  lemma InvertApplicable(a: CubeAction)
    ensures Applicable(Invert(a)) <==> Applicable(a)
  {
    NormalizeNegated(a.angle);
  }

  /** Turning by a move and then by its inverse restores the colours. */
  lemma UndoOnce(d: seq<int>, a: CubeAction)
    requires Fits(a.slice.dim, a.slice) && |d| == 6 * a.slice.dim * a.slice.dim && Applicable(a)
    ensures Adjusted(d, a.slice, a.angle).Success?
    ensures Adjusted(Adjusted(d, a.slice, a.angle).value, a.slice, Invert(a).angle) == Success(d)
  {
    ApplicableSucceeds(d, a);
    AdjustUndo(d, a.slice, a.angle);
  }

  /** Turning by a move and then by its inverse restores the colours, in either order. */
  lemma InvertUndoes(d: seq<int>, a: CubeAction)
    requires Fits(a.slice.dim, a.slice) && |d| == 6 * a.slice.dim * a.slice.dim && Applicable(a)
    ensures Adjusted(d, a.slice, a.angle).Success?
    ensures Adjusted(Adjusted(d, a.slice, a.angle).value, Invert(a).slice, Invert(a).angle) == Success(d)
    ensures Adjusted(d, Invert(a).slice, Invert(a).angle).Success?
    ensures Adjusted(Adjusted(d, Invert(a).slice, Invert(a).angle).value, a.slice, a.angle) == Success(d)
  {
    UndoOnce(d, a);
    InvertApplicable(a);
    UndoOnce(d, Invert(a));
    InvertTwice(a);
  }
}
