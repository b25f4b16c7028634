/** The stage the solver runs on a whole cube: each candidate action is a move sequence, weighed
    by playing it on a copy of the cube, and the cube is tried in the orientations `realign` and
    `transform` list. The model weighs with the layer-by-layer heuristic, the only one the
    solver instantiates the stage with. */
module CubeStages {
  import opened Wrappers
  import opened Faces
  import opened Sequences
  import opened Config
  import Orientations
  import Actions
  import Snapshots
  import Solve3

  // Actions.

  /** `Action`: a move sequence and its length. */
  datatype SeqAction = SeqAction(moves: seq<SequenceMove>, length: int)

  /** `new Action(sequence)`: the length is the sequence's `getLength()`. */
  method NewAction(moves: seq<SequenceMove>) returns (a: SeqAction)
    ensures a.moves == moves && a.length == TotalLength(moves)
  {
    var length := GetLength(moves);
    a := SeqAction(moves, length);
  }

  /** The length of an action counts the quarter turns it makes on any cube, when no move of it
      has a reversed layer range. */
  lemma ActionLength(o: Orientations.CubeOrientation, a: SeqAction)
    requires a.length == TotalLength(a.moves)
    requires forall k :: 0 <= k < |a.moves| ==> a.moves[k].start <= a.moves[k].end + 1
    ensures a.length == QuarterTurns(SequenceActions(o, a.moves))
  {
    LengthIsQuarterTurns(o, a.moves);
  }

  // Models.

  /** `CubeModel`: the cube it was made from, and its weight. */
  datatype CubeModel = CubeModel(cube: Orientations.CubeOrientation, weight: int)

  /** The cube's stickers as they are now, seen through its labels. */
  function Snap(o: Orientations.CubeOrientation): (c: Snapshots.Cube)
    reads o.config.data
    ensures c.o == o && c.data == o.config.data[..]
  {
    Snapshots.Cube(o, o.config.data[..])
  }

  /** `new CubeModel(cube, weight)`: the weight given, or the cube weighed when none is given. */
  method NewModel(cube: Orientations.CubeOrientation, weight: Option<int>) returns (m: CubeModel)
    ensures m.cube == cube
    ensures m.weight == if weight.Some? then weight.value else Solve3.Weigh(Snap(cube))
  {
    var w;
    if weight.None? {
      w := Solve3.WeighCube(Snap(cube));
    } else {
      w := weight.value;
    }
    m := CubeModel(cube, w);
  }

  /** `weighAction(action)`: the weight of the model's cube once every action of the sequence
      has acted on it, found by playing them on a clone. The method may change nothing that
      exists when it is called, so the model's own cube keeps its stickers. */
  method WeighAction(m: CubeModel, a: SeqAction) returns (w: int)
    requires m.cube.config.Valid()
    requires forall k :: 0 <= k < |a.moves| ==> a.moves[k].end < m.cube.config.size
    ensures w == Solve3.Weigh(Snapshots.Perform(Snap(m.cube), SequenceActions(m.cube, a.moves)))
  {
    var cube := Orientations.Clone(m.cube);
    ActionsWithin(cube, a.moves, cube.config.size);
    PlayAll(cube, SequenceActions(cube, a.moves));
    w := Solve3.WeighCube(Snap(cube));
    CopyWeighs(m.cube, cube, a.moves, m.cube.config.data[..]);
  }

  /** The loop of `weighAction`: every action acts on the cube in turn. */
  method PlayAll(cube: Orientations.CubeOrientation, actions: seq<Actions.CubeAction>)
    requires cube.config.Valid()
    requires forall k :: 0 <= k < |actions| ==>
      actions[k].config == cube.config && 0 <= actions[k].offset < cube.config.size
    modifies cube.config.data
    ensures Snap(cube) == Snapshots.Perform(old(Snap(cube)), actions)
  {
    var n := cube.config.size;
    ghost var start := Snap(cube);
    for i := 0 to |actions|
      invariant cube.config.data[..] == Snapshots.Perform(start, actions[..i]).data
    {
      var x := actions[i];
      ghost var before := cube.config.data[..];
      Actions.Act(x);
      PlayStep(start, actions, i, before, cube.config.data[..]);
    }
    assert actions[..|actions|] == actions;
  }

  /** One turn of `PlayAll`'s loop: acting on the cube performs the next action. */
  lemma PlayStep(start: Snapshots.Cube, actions: seq<Actions.CubeAction>, i: int, before: seq<Int8>, after: seq<Int8>)
    requires 0 <= i < |actions| && Snapshots.Size(start) == actions[i].config.size
    requires 0 <= actions[i].offset < actions[i].config.size
    requires before == Snapshots.Perform(start, actions[..i]).data && Snapshots.WellFormed(start)
    requires after == Actions.ApplyAction(before, actions[i])
    ensures after == Snapshots.Perform(start, actions[..i + 1]).data
  {
    var x := actions[i];
    Actions.StepsMove(before, x.config.size, x.face, x.offset, x.angle);
    Snapshots.PerformNext(start, actions, i);
  }

  /** Playing a sequence on a clone and weighing the clone gives the weight of playing it on
      the original. */
  lemma CopyWeighs(o: Orientations.CubeOrientation, copy: Orientations.CubeOrientation, moves: seq<SequenceMove>, d: seq<Int8>)
    requires Orientations.LabelsOf(copy) == Orientations.LabelsOf(o) && copy.config.size == o.config.size
    ensures Solve3.Weigh(Snapshots.Perform(Snapshots.Cube(copy, d), SequenceActions(copy, moves))) ==
      Solve3.Weigh(Snapshots.Perform(Snapshots.Cube(o, d), SequenceActions(o, moves)))
  {
    ActionsOnCopy(o, copy, moves);
    var c := Snapshots.Perform(Snapshots.Cube(o, d), SequenceActions(o, moves));
    Snapshots.PerformElsewhere(Snapshots.Cube(copy, d), Snapshots.Cube(o, d), SequenceActions(copy, moves), SequenceActions(o, moves));
    Solve3.WeighRelabel(c, copy);
  }

  // The orientations the stage tries.

  /** `realign(cube)`: the cube, then five relabellings that bring each other face to the top. */
  function Realign(o: Orientations.CubeOrientation): (r: seq<Orientations.CubeOrientation>)
    ensures |r| == 6 && r[0] == o
    ensures forall k :: 0 <= k < 6 ==> r[k].config == o.config
  {
    [ o,
      Orientations.Reorient(o, Top, Left, Front),
      Orientations.Reorient(o, Right, Front, Bottom),
      Orientations.Reorient(o, Bottom, Right, Front),
      Orientations.Reorient(o, Right, Back, Top),
      Orientations.Reorient(o, Left, Bottom, Back) ]
  }

  /** The labelled face each entry of `realign` puts on top. */
  function RealignedTop(k: int): Face
    requires 0 <= k < 6
  {
    match k
    case 0 => Top
    case 1 => Left
    case 2 => Front
    case 3 => Right
    case 4 => Back
    case _ => Bottom
  }

  lemma RealignedTopsDiffer(j: int, k: int)
    requires 0 <= j < k < 6
    ensures RealignedTop(j) != RealignedTop(k)
  {
  }

  lemma RealignTop(o: Orientations.CubeOrientation, k: int)
    requires 0 <= k < 6
    ensures Orientations.MapFace(Realign(o)[k], Top) == Orientations.MapFace(o, RealignedTop(k))
  {
    var r := Realign(o);
    if k == 1 {
      Orientations.ReorientMap(o, Top, Left, Front, Top);
    } else if k == 2 {
      Orientations.ReorientMap(o, Right, Front, Bottom, Top);
    } else if k == 3 {
      Orientations.ReorientMap(o, Bottom, Right, Front, Top);
    } else if k == 4 {
      Orientations.ReorientMap(o, Right, Back, Top, Top);
    } else if k == 5 {
      Orientations.ReorientMap(o, Left, Bottom, Back, Top);
    }
  }

  /** The physical face on top in each of a list of orientations. */
  function Tops(os: seq<Orientations.CubeOrientation>): (r: seq<Face>)
    ensures |r| == |os| && forall k :: 0 <= k < |os| ==> r[k] == Orientations.MapFace(os[k], Top)
  {
    seq(|os|, k requires 0 <= k < |os| => Orientations.MapFace(os[k], Top))
  }

  /** Two different orientations `realign` yields have different faces on top. */
  lemma RealignTopsDiffer(o: Orientations.CubeOrientation, j: int, k: int)
    requires Orientations.ValidOrientation(o) && 0 <= j < k < 6
    ensures Tops(Realign(o))[j] != Tops(Realign(o))[k]
  {
    var x, y := RealignedTop(j), RealignedTop(k);
    RealignedTopsDiffer(j, k);
    Orientations.MapInjective(Orientations.LabelsOf(o), x, y);
    RealignTop(o, j);
    RealignTop(o, k);
  }

  /** Every face is on top in some orientation `realign` yields. */
  lemma RealignTopsCover(o: Orientations.CubeOrientation, f: Face)
    requires Orientations.ValidOrientation(o)
    ensures f in Tops(Realign(o))
  {
    var g := Orientations.MapOnto(Orientations.LabelsOf(o), f);
    var k := if g == Top then 0 else if g == Left then 1 else if g == Front then 2
      else if g == Right then 3 else if g == Back then 4 else 5;
    RealignTop(o, k);
    assert Tops(Realign(o))[k] == f;
  }

  /** Each physical face is on top in exactly one of the orientations `realign` yields. */
  lemma RealignEachTopOnce(o: Orientations.CubeOrientation)
    requires Orientations.ValidOrientation(o)
    ensures forall j, k :: 0 <= j < k < 6 ==> Tops(Realign(o))[j] != Tops(Realign(o))[k]
    ensures forall f: Face :: f in Tops(Realign(o))
  {
    forall j, k | 0 <= j < k < 6
      ensures Tops(Realign(o))[j] != Tops(Realign(o))[k]
    {
      RealignTopsDiffer(o, j, k);
    }
    forall f: Face
      ensures f in Tops(Realign(o))
    {
      RealignTopsCover(o, f);
    }
  }

  /** `transform(cube)`: the cube and its three quarter turns about the top, then the mirrored
      labelling `reorient(Front, Top, Right)` and its three quarter turns. */
  function Transform(o: Orientations.CubeOrientation): (r: seq<Orientations.CubeOrientation>)
    ensures |r| == 8 && r[0] == o
  {
    TopTurns(o) + TopTurns(Orientations.Reorient(o, Front, Top, Right))
  }

  /** An orientation and its three quarter turns about the top. */
  function TopTurns(o: Orientations.CubeOrientation): (r: seq<Orientations.CubeOrientation>)
    ensures |r| == 4 && r[0] == o
  {
    [o, Orientations.Rotate(o, Top, 1), Orientations.Rotate(o, Top, 2), Orientations.Rotate(o, Top, 3)]
  }

  /** A turn about the top keeps the cube, the face on top and the handedness. */
  lemma TurnAboutTop(o: Orientations.CubeOrientation, a: int)
    requires Orientations.ValidOrientation(o)
    ensures var r := Orientations.Rotate(o, Top, a);
      r.config == o.config && Orientations.ValidOrientation(r) &&
      Orientations.MapFace(r, Top) == Orientations.MapFace(o, Top) &&
      Orientations.IsInverse(r) == Orientations.IsInverse(o)
  {
    Orientations.RotateFixes(o, Top, a);
    Orientations.RotateHandedness(o, Top, a);
  }

  /** The same, for each of the turns about the top. */
  lemma TopTurnsKeep(o: Orientations.CubeOrientation, k: int)
    requires Orientations.ValidOrientation(o) && 0 <= k < 4
    ensures var r := TopTurns(o)[k];
      r.config == o.config && Orientations.ValidOrientation(r) &&
      Orientations.MapFace(r, Top) == Orientations.MapFace(o, Top) &&
      Orientations.IsInverse(r) == Orientations.IsInverse(o)
  {
    if k > 0 {
      assert TopTurns(o)[k] == Orientations.Rotate(o, Top, k);
      TurnAboutTop(o, k);
    }
  }

  /** Every orientation `transform` yields is of the same cube and keeps the same face on top;
      the first four keep the handedness and the last four reverse it. */
  lemma TransformAt(o: Orientations.CubeOrientation, k: int)
    requires Orientations.ValidOrientation(o) && 0 <= k < 8
    ensures var r := Transform(o)[k];
      r.config == o.config && Orientations.ValidOrientation(r) &&
      Orientations.MapFace(r, Top) == Orientations.MapFace(o, Top) &&
      Orientations.IsInverse(r) == (if k < 4 then Orientations.IsInverse(o) else !Orientations.IsInverse(o))
  {
    if k < 4 {
      TopTurnsKeep(o, k);
    } else {
      var m := Orientations.Reorient(o, Front, Top, Right);
      Orientations.ReorientMap(o, Front, Top, Right, Top);
      Orientations.MirrorHandedness(o);
      assert Transform(o)[k] == TopTurns(m)[k - 4];
      TopTurnsKeep(m, k - 4);
    }
  }

  // The actions the stage offers.

  /** `getActions(model)`: one action per sequence of the model's weight, in order. */
  method GetActions(model: CubeModel) returns (actions: seq<SeqAction>)
    ensures |actions| == |Solve3.SequenceTexts(model.weight)|
    ensures forall k :: 0 <= k < |actions| ==>
      actions[k].moves == Scan(Solve3.SequenceTexts(model.weight)[k]) &&
      actions[k].length == TotalLength(actions[k].moves)
  {
    actions := ParseAll(Solve3.SequenceTexts(model.weight));
  }

  /** Each text parsed into an action, in order. */
  method ParseAll(texts: seq<string>) returns (actions: seq<SeqAction>)
    ensures |actions| == |texts|
    ensures forall k :: 0 <= k < |actions| ==>
      actions[k].moves == Scan(texts[k]) && actions[k].length == TotalLength(actions[k].moves)
  {
    actions := [];
    for k := 0 to |texts|
      invariant |actions| == k
      invariant forall i :: 0 <= i < k ==>
        actions[i].moves == Scan(texts[i]) && actions[i].length == TotalLength(actions[i].moves)
    {
      var moves := Parse(texts[k]);
      var a := NewAction(moves);
      actions := actions + [a];
    }
  }

  /** A model whose weight is that of its cube has actions to offer exactly while the cube is
      not solved by the heuristic's measure. */
  lemma ActionsWhilePending(model: CubeModel, c: Snapshots.Cube)
    requires model.weight == Solve3.Weigh(c)
    ensures |Solve3.SequenceTexts(model.weight)| > 0 <==> model.weight != 0
  {
    Solve3.SequencesWhilePending(c);
  }
}
