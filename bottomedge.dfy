/** The bottom-edge stage: places and orients the four edges of the bottom layer. Its model
    reads each edge (its bottom sticker and its side sticker) and the colours the edges must
    match; its three actions are fixed move sequences, written in a small process notation. */
module BottomEdge {
  import opened Wrappers
  import opened Faces
  import opened Config
  import opened Snapshots
  import opened Processes
  import opened EdgeProcesses
  import Orientations
  import Actions
  import Rows
  import FaceViews
  import Rings
  import Stages

  // The model.

  /** A sticker read from the cube; nothing where the read falls outside the buffer. */
  type Color = Option<Int8>

  /** An edge of the bottom layer: its sticker on the bottom face and its sticker on the side. */
  datatype Edge = Edge(bottom: Color, side: Color)

  type Edges = s: seq<Edge> | |s| == 4 witness [Edge(None, None), Edge(None, None), Edge(None, None), Edge(None, None)]

  /** The colours of the four side centres, then of the bottom centre. */
  type Colors = s: seq<Color> | |s| == 5 witness [None, None, None, None, None]

  datatype Model = Model(cube: Cube, edges: Edges, colors: Colors)

  /** How an edge stands: its side sticker matches its own side's colour; or it is flipped in
      place; or it belongs elsewhere, the right way up or not. */
  datatype Status = Correct | Flipped | Wrong | WrongFlipped

  /** The status of edge `i` among the edges `e`, against the colours `c`. */
  function StatusOf(e: Edges, c: Colors, i: int): Status
    requires 0 <= i < 4
  {
    if e[i].side == c[i] then Correct
    else if e[i].bottom == c[i] then Flipped
    else if e[i].bottom == c[4] then Wrong
    else WrongFlipped
  }

  /** How many of the first `k` edges stand as `s`. */
  function CountUpTo(e: Edges, c: Colors, s: Status, k: int): (n: nat)
    requires 0 <= k <= 4
    ensures n <= k
  {
    if k == 0 then 0 else CountUpTo(e, c, s, k - 1) + (if StatusOf(e, c, k - 1) == s then 1 else 0)
  }

  function Count(e: Edges, c: Colors, s: Status): nat
  {
    CountUpTo(e, c, s, 4)
  }

  /** The weight from the counts: 0 when all four edges are correct, 2 with two correct, and
      otherwise 1 to 3 by whether some edge is out of place and upside down. */
  function Score(correct: int, wrongFlipped: int): int
  {
    if correct == 4 then 0
    else if correct == 2 then 2
    else if correct == 1 then (if wrongFlipped > 0 then 1 else 2)
    else if wrongFlipped > 0 then 2
    else 3
  }

  predicate AllCorrect(m: Model)
  {
    forall i :: 0 <= i < 4 ==> m.edges[i].side == m.colors[i]
  }

  /** `Model.weigh()`: the score of the counts of correct and of wrongly placed, flipped edges. */
  function Weigh(m: Model): int
  {
    Score(Count(m.edges, m.colors, Correct), Count(m.edges, m.colors, WrongFlipped))
  }

  /** The weight lies between 0 and 3, and is 0 exactly when every edge's side sticker matches
      its side's colour. */
  lemma WeighRange(m: Model)
    ensures 0 <= Weigh(m) <= 3
    ensures Weigh(m) == 0 <==> AllCorrect(m)
  {
    CountAll(m.edges, m.colors, Correct, 4);
    CorrectSides(m);
  }

  lemma CorrectSides(m: Model)
    ensures AllCorrect(m) <==> forall i :: 0 <= i < 4 ==> StatusOf(m.edges, m.colors, i) == Correct
  {
    forall i | 0 <= i < 4
      ensures StatusOf(m.edges, m.colors, i) == Correct <==> m.edges[i].side == m.colors[i]
    {
    }
  }

  /** All of the first `k` edges stand as `s` exactly when the count reaches `k`. */
  lemma {:induction false} CountAll(e: Edges, c: Colors, s: Status, k: int)
    requires 0 <= k <= 4
    ensures CountUpTo(e, c, s, k) == k <==> forall i :: 0 <= i < k ==> StatusOf(e, c, i) == s
  {
    if k > 0 {
      CountAll(e, c, s, k - 1);
    }
  }

  /** Each edge stands in exactly one way, so the four counts add up to four. */
  lemma {:induction false} CountsAddUp(e: Edges, c: Colors, k: int)
    requires 0 <= k <= 4
    ensures CountUpTo(e, c, Correct, k) + CountUpTo(e, c, Flipped, k) + CountUpTo(e, c, Wrong, k) + CountUpTo(e, c, WrongFlipped, k) == k
  {
    if k > 0 {
      CountsAddUp(e, c, k - 1);
    }
  }

  /** `Model.weigh()` as written: counts the edges in one pass, then scores the counts. */
  method WeighModel(m: Model) returns (w: int)
    ensures w == Weigh(m)
  {
    var correct, flipped, wrong, wrongFlipped := 0, 0, 0, 0;
    for i := 0 to 4
      invariant correct == CountUpTo(m.edges, m.colors, Correct, i) && flipped == CountUpTo(m.edges, m.colors, Flipped, i)
      invariant wrong == CountUpTo(m.edges, m.colors, Wrong, i) && wrongFlipped == CountUpTo(m.edges, m.colors, WrongFlipped, i)
    {
      var e := m.edges[i];
      if e.side == m.colors[i] {
        correct := correct + 1;
      } else if e.bottom == m.colors[i] {
        flipped := flipped + 1;
      } else if e.bottom == m.colors[4] {
        wrong := wrong + 1;
      } else {
        wrongFlipped := wrongFlipped + 1;
      }
    }
    if correct == 4 {
      return 0;
    }
    if correct == 2 {
      return 2;
    }
    if correct == 1 {
      return if wrongFlipped > 0 then 1 else 2;
    }
    return if wrongFlipped > 0 then 2 else 3;
  }

  // The actions.

  function Swap(e: Edge): Edge
  {
    Edge(e.side, e.bottom)
  }

  /** `alterModel`: where each process moves the first three edges (and which it flips); the
      fourth edge stays. */
  function AlterModel(a: EdgeAction, m: Model): (r: Model)
    ensures r.cube == m.cube && r.colors == m.colors && r.edges[3] == m.edges[3]
  {
    var e := m.edges;
    match a
    case Action1 => Model(m.cube, [Swap(e[2]), e[0], Swap(e[1]), e[3]], m.colors)
    case Action2 => Model(m.cube, [e[2], Swap(e[0]), Swap(e[1]), e[3]], m.colors)
    case Action3 => Model(m.cube, [e[1], Swap(e[2]), Swap(e[0]), e[3]], m.colors)
  }

  /** A written process has no key, so whatever the arguments, `runProcess` yields one action
      per move. */
  lemma {:induction false} WrittenProcessActions(o: Orientations.CubeOrientation, ms: seq<Token>, args: seq<Arg>)
    requires forall k :: 0 <= k < |ms| ==> Writable(ms[k])
    ensures ProcessActions(o, ProcessText(ms), args) == Success(ActionsOf(o, ms))
  {
    var s := ProcessText(ms);
    NoKeyInText(ms);
    assert forall q :: !KeyAt(s, q);
    ProcessTextRead(ms);
    MovesOfTurns(ms);
  }

  /** `alterCube(cube)`: the actions of the action's process; it has no parameter, so the error
      path of `runProcess` is never taken. */
  function AlterCube(a: EdgeAction, c: Cube): (r: seq<Actions.CubeAction>)
  {
    match ProcessActions(c.o, ProcessOf(a), [])
    case Success(actions) => actions
    case Failure(_) => []
  }

  /** The actions each process yields: one `getAction` per move, in order. */
  lemma AlterCubeMoves(a: EdgeAction, c: Cube)
    ensures forall k :: 0 <= k < |MovesOf(a)| ==> MovesOf(a)[k].Turn?
    ensures ProcessActions(c.o, ProcessOf(a), []) == Success(ActionsOf(c.o, MovesOf(a)))
    ensures AlterCube(a, c) == ActionsOf(c.o, MovesOf(a))
  {
    ProcessWritten(a);
    WrittenProcessActions(c.o, MovesOf(a), []);
  }

  /** Actions 1 and 3 undo each other on the model. */
  lemma FirstThirdInverse(m: Model)
    ensures AlterModel(Action3, AlterModel(Action1, m)) == m
    ensures AlterModel(Action1, AlterModel(Action3, m)) == m
  {
    assert AlterModel(Action3, AlterModel(Action1, m)).edges == m.edges;
    assert AlterModel(Action1, AlterModel(Action3, m)).edges == m.edges;
  }

  /** Action 2 cycles the first three edges, flipping two of them: three times is no change,
      and once or twice is a change whenever the three edges differ. */
  lemma SecondCycles(m: Model)
    ensures AlterModel(Action2, AlterModel(Action2, AlterModel(Action2, m))) == m
  {
    assert AlterModel(Action2, AlterModel(Action2, AlterModel(Action2, m))).edges == m.edges;
  }

  // The views `transform` offers.

  /** The four sides read from the next one round: entry `i` comes from `(i + k) % 4`; the bottom
      colour (entry 4 of the colours) stays. */
  function Turned<T>(s: seq<T>, k: int): (r: seq<T>)
    requires |s| >= 4
    ensures |r| == |s| && r[4..] == s[4..]
    ensures forall i :: 0 <= i < 4 ==> r[i] == s[(i + k) % 4]
  {
    [s[k % 4], s[(k + 1) % 4], s[(k + 2) % 4], s[(k + 3) % 4]] + s[4..]
  }

  /** The four sides in reverse order, as seen in the mirror; the bottom colour stays. */
  function Mirrored<T>(s: seq<T>): (r: seq<T>)
    requires |s| >= 4
    ensures |r| == |s| && r[4..] == s[4..]
    ensures forall i :: 0 <= i < 4 ==> r[i] == s[3 - i]
  {
    [s[3], s[2], s[1], s[0]] + s[4..]
  }

  /** The model seen after turning the cube a quarter `k` times about the bottom face. */
  function TurnModel(m: Model, k: int): (r: Model)
    ensures r.cube.data == m.cube.data
    ensures r.edges == Turned(m.edges, k) && r.colors == Turned(m.colors, k)
  {
    Model(Relabel(m.cube, Orientations.Rotate(m.cube.o, Bottom, k)), Turned(m.edges, k), Turned(m.colors, k))
  }

  /** The model seen through the left-handed labels `reorient(Front, Top, Right)`. */
  function MirrorModel(m: Model): (r: Model)
    ensures r.cube.data == m.cube.data
    ensures r.edges == Mirrored(m.edges) && r.colors == Mirrored(m.colors)
  {
    Model(Relabel(m.cube, Orientations.Reorient(m.cube.o, Front, Top, Right)), Mirrored(m.edges), Mirrored(m.colors))
  }

  /** No turn at all is the model itself. */
  lemma TurnZero(m: Model)
    ensures TurnModel(m, 0) == m
  {
    assert Turned(m.edges, 0) == m.edges;
    assert Turned(m.colors, 0) == m.colors;
  }

  /** View `k` of the model: its turns for `k` below 4, then the turns of the mirrored model. */
  function View(m: Model, k: int): Model
    requires 0 <= k < 8
  {
    if k < 4 then TurnModel(m, k) else TurnModel(MirrorModel(m), k - 4)
  }

  /** `Model.transform()`: the model itself, its three turns about the bottom face, the mirrored
      model and its three turns. */
  function Transform(m: Model): (r: seq<Model>)
    ensures |r| == 8 && r[0] == m
    ensures forall k :: 0 <= k < 8 ==> r[k] == View(m, k) && r[k].cube.data == m.cube.data
  {
    TurnZero(m);
    seq(8, k requires 0 <= k < 8 => View(m, k))
  }

  /** Whether edge `i` stands as `s`, as a number. */
  function Hit(e: Edges, c: Colors, s: Status, i: int): nat
    requires 0 <= i < 4
  {
    if StatusOf(e, c, i) == s then 1 else 0
  }

  lemma CountTerms(e: Edges, c: Colors, s: Status)
    ensures Count(e, c, s) == Hit(e, c, s, 0) + Hit(e, c, s, 1) + Hit(e, c, s, 2) + Hit(e, c, s, 3)
  {
    assert CountUpTo(e, c, s, 1) == Hit(e, c, s, 0);
    assert CountUpTo(e, c, s, 2) == Hit(e, c, s, 0) + Hit(e, c, s, 1);
    assert CountUpTo(e, c, s, 3) == Hit(e, c, s, 0) + Hit(e, c, s, 1) + Hit(e, c, s, 2);
  }

  /** Turning moves each edge together with its own side's colour, so the edges keep their
      statuses, each at another place; so do they in the mirror. */
  lemma TurnCount(e: Edges, c: Colors, k: int, s: Status)
    requires 0 <= k <= 3
    ensures Count(Turned(e, k), Turned(c, k), s) == Count(e, c, s)
  {
    CountTerms(e, c, s);
    CountTerms(Turned(e, k), Turned(c, k), s);
    if k == 0 {
      TurnHits(e, c, 0, s);
    } else if k == 1 {
      TurnHits(e, c, 1, s);
    } else if k == 2 {
      TurnHits(e, c, 2, s);
    } else {
      TurnHits(e, c, 3, s);
    }
  }

  lemma TurnHits(e: Edges, c: Colors, k: int, s: Status)
    ensures forall i :: 0 <= i < 4 ==> Hit(Turned(e, k), Turned(c, k), s, i) == Hit(e, c, s, (i + k) % 4)
  {
  }

  lemma MirrorCount(e: Edges, c: Colors, s: Status)
    ensures Count(Mirrored(e), Mirrored(c), s) == Count(e, c, s)
  {
    CountTerms(e, c, s);
    CountTerms(Mirrored(e), Mirrored(c), s);
  }

  /** Turning the model about the bottom face, or mirroring it, does not change its weight. */
  lemma TurnKeepsWeight(m: Model, k: int)
    requires 0 <= k <= 3
    ensures Weigh(TurnModel(m, k)) == Weigh(m)
  {
    TurnCount(m.edges, m.colors, k, Correct);
    TurnCount(m.edges, m.colors, k, WrongFlipped);
  }

  lemma MirrorKeepsWeight(m: Model)
    ensures Weigh(MirrorModel(m)) == Weigh(m)
  {
    MirrorCount(m.edges, m.colors, Correct);
    MirrorCount(m.edges, m.colors, WrongFlipped);
  }

  /** Each turn of the mirrored model weighs what the model weighs. */
  lemma MirrorTurnKeepsWeight(m: Model, k: int)
    requires 0 <= k <= 3
    ensures Weigh(TurnModel(MirrorModel(m), k)) == Weigh(m)
  {
    MirrorKeepsWeight(m);
    TurnKeepsWeight(MirrorModel(m), k);
  }

  /** View `k` weighs what the model weighs. */
  lemma ViewKeepsWeight(m: Model, k: int)
    requires 0 <= k < 8
    ensures Weigh(View(m, k)) == Weigh(m)
  {
    if k < 4 {
      TurnViewKeepsWeight(m, k);
    } else {
      MirrorViewKeepsWeight(m, k);
    }
  }

  lemma TurnViewKeepsWeight(m: Model, k: int)
    requires 0 <= k < 4
    ensures Weigh(View(m, k)) == Weigh(m)
  {
    TurnKeepsWeight(m, k);
  }

  lemma MirrorViewKeepsWeight(m: Model, k: int)
    requires 4 <= k < 8
    ensures Weigh(View(m, k)) == Weigh(m)
  {
    MirrorTurnKeepsWeight(m, k - 4);
  }

  /** Every view `transform` offers weighs what the model weighs: the views only relabel. */
  lemma TransformKeepsWeight(m: Model)
    ensures forall k :: 0 <= k < 8 ==> Weigh(Transform(m)[k]) == Weigh(m)
  {
    forall k | 0 <= k < 8
      ensures Weigh(View(m, k)) == Weigh(m)
    {
      ViewKeepsWeight(m, k);
    }
  }

  // Reading the model from the cube.

  /** `face.get(i, j)` of a face view, read from the cube. */
  function FaceSticker(c: Cube, v: FaceViews.CubeFace, i: int, j: int): Color
  {
    Read(c, FaceViews.Index(v, i, j))
  }

  /** `ring.getRow(m).get(1)`: the second sticker of row `m` of a ring, read from the cube. */
  function RingSticker(c: Cube, r: Rings.CubeRing, m: int): Color
    requires 0 <= m < 4
  {
    Read(c, Rows.Index(Rings.RowAt(r, m), 1))
  }

  /** `makeModel(cube)`: the edges from the bottom face and the layer above it (ring 0), the
      side colours from the middle layer (ring 1), the bottom colour from the bottom face. */
  function MakeModel(c: Cube): (m: Model)
    ensures m.cube == c
    ensures m.colors[4] == FaceSticker(c, Orientations.GetStandardFace(c.o, Bottom), 1, 1)
  {
    var face := Orientations.GetStandardFace(c.o, Bottom);
    var ring1 := Orientations.GetStandardRing(c.o, Bottom, 0);
    var ring2 := Orientations.GetStandardRing(c.o, Bottom, 1);
    var end := Size(c) - 1;
    Model(
      c,
      [ Edge(FaceSticker(c, face, 1, end), RingSticker(c, ring1, 2)),
        Edge(FaceSticker(c, face, end, 1), RingSticker(c, ring1, 1)),
        Edge(FaceSticker(c, face, 1, 0), RingSticker(c, ring1, 0)),
        Edge(FaceSticker(c, face, 0, 1), RingSticker(c, ring1, 3)) ],
      [ RingSticker(c, ring2, 2), RingSticker(c, ring2, 1), RingSticker(c, ring2, 0),
        RingSticker(c, ring2, 3), FaceSticker(c, face, 1, 1) ])
  }

  /** Every sticker of a face's block in the solved buffer has that face's colour. */
  lemma SolvedBlock(n: nat, f: Face, idx: int)
    requires n * n * f <= idx < n * n * f + n * n
    ensures 0 <= idx < |SolvedData(n)| && SolvedData(n)[idx] == f as Int8
  {
    BlockEnd(n, f);
    assert Sticker(SolvedData(n), n, f, idx - n * n * f) == f as Int8;
  }

  /** On a solved cube the second sticker of row `m` of the rings at depth 0 and 1 about the
      bottom lie on the same side face, so they have the same colour. */
  lemma SolvedRows(c: Cube, m: int)
    requires WellFormed(c) && Size(c) >= 2 && c.data == SolvedData(Size(c)) && 0 <= m < 4
    ensures RingSticker(c, Orientations.GetStandardRing(c.o, Bottom, 0), m).Some?
    ensures RingSticker(c, Orientations.GetStandardRing(c.o, Bottom, 0), m)
      == RingSticker(c, Orientations.GetStandardRing(c.o, Bottom, 1), m)
  {
    var n := Size(c);
    var o := c.o;
    var iFrom, jFrom := Orientations.MapFace(o, Front), Orientations.MapFace(o, Left);
    var f := Rings.RowFace(iFrom, jFrom, m);
    Rings.MakeRowsOn(n, Orientations.MapFace(o, Bottom), 0, iFrom, jFrom);
    Rings.MakeRowsOn(n, Orientations.MapFace(o, Bottom), 1, iFrom, jFrom);
    var r1 := Rings.RowAt(Orientations.GetStandardRing(o, Bottom, 0), m);
    var r2 := Rings.RowAt(Orientations.GetStandardRing(o, Bottom, 1), m);
    assert Rows.InBlock(n, f, r1) && Rows.InBlock(n, f, r2);
    SolvedBlock(n, f, Rows.Index(r1, 1));
    SolvedBlock(n, f, Rows.Index(r2, 1));
  }

  /** The row of the rings about the bottom that edge `i`, and side colour `i`, are read from. */
  function SideRow(i: int): int
  {
    match i
    case 0 => 2
    case 1 => 1
    case 2 => 0
    case _ => 3
  }

  /** Edge `i`'s side sticker is read from ring 0 and side colour `i` from ring 1, both from
      row `SideRow(i)`. */
  lemma ModelSides(c: Cube, i: int)
    requires 0 <= i < 4
    ensures 0 <= SideRow(i) < 4
    ensures MakeModel(c).edges[i].side == RingSticker(c, Orientations.GetStandardRing(c.o, Bottom, 0), SideRow(i))
    ensures MakeModel(c).colors[i] == RingSticker(c, Orientations.GetStandardRing(c.o, Bottom, 1), SideRow(i))
  {
  }

  /** A solved cube weighs nothing: each edge's side sticker shares its face with the centre
      colour it is matched against. */
  lemma SolvedWeighsNothing(c: Cube)
    requires WellFormed(c) && Size(c) >= 2 && c.data == SolvedData(Size(c))
    ensures Weigh(MakeModel(c)) == 0
  {
    var m := MakeModel(c);
    forall i | 0 <= i < 4
      ensures m.edges[i].side == m.colors[i]
    {
      ModelSides(c, i);
      SolvedRows(c, SideRow(i));
    }
    WeighRange(m);
  }

  // The stage.

  /** `BottomEdgeStage`: the cube alone as its own transform, the model above, and the three
      processes as its actions. */
  const EdgeStage: Stages.Stage<Cube, Model, EdgeAction, Actions.CubeAction> :=
    Stages.Stage(
      (c: Cube) => [c], MakeModel, [Action1, Action2, Action3], (m: Model) => m.cube,
      Transform, Weigh, AlterModel, AlterCube, Perform)

  /** The stage takes at most three rounds, since the first model weighs at most 3. */
  lemma EdgeStageRounds(c: Cube)
    ensures Stages.Run(EdgeStage, c).rounds <= 3
  {
    assert EdgeStage.transform(c) == [c];
    Stages.RunBounded(EdgeStage, c);
    WeighRange(MakeModel(c));
  }

  /** On a solved cube the stage yields nothing. */
  lemma SolvedEdgeStage(c: Cube)
    requires WellFormed(c) && Size(c) >= 2 && c.data == SolvedData(Size(c))
    ensures Stages.Run(EdgeStage, c) == Stages.Outcome([], None, 0)
  {
    assert EdgeStage.transform(c) == [c];
    SolvedWeighsNothing(c);
    Stages.AlreadyDone(EdgeStage, c);
  }
}
