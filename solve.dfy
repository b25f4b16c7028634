/** The solver's entry point: the caller's cube, seen through the identity labelling, handed to
    the whole-cube stage with the layer-by-layer heuristic. */
module Solve {
  import opened Faces
  import opened Config
  import Orientations
  import Snapshots
  import Solve3

  /** The orientation `solveCube(config)` starts from: `(Right, Top, Front)` on the caller's own
      cube, not a copy, so every face plays itself and the frame is right-handed. */
  function Start(config: CubeConfig): (o: Orientations.CubeOrientation)
    ensures o.config == config
    ensures forall f: Face :: Orientations.MapFace(o, f) == f
    ensures Orientations.ValidOrientation(o) && !Orientations.IsInverse(o)
  {
    Orientations.CubeOrientation(config, Right, Top, Front)
  }

  /** A freshly made cube, seen as the solver starts, weighs nothing: the solver yields no move
      for it. */
  lemma FreshCubeWeighsNothing(config: CubeConfig, d: seq<Int8>)
    requires config.size >= 1 && d == SolvedData(config.size)
    ensures Solve3.Weigh(Snapshots.Cube(Start(config), d)) == 0
  {
    Solve3.SolvedWeighsNothing(Snapshots.Cube(Start(config), d));
  }
}
