/** `Solve3Model`: the layer-by-layer heuristic of the cube stage. Its weight names the first
    sub-stage that is not done yet (top edges, top corners, side edges, then the position and
    the twist of the bottom corners, then the bottom edges), as a band of `0x10000`, plus how
    far that sub-stage is from done; `getSequences` offers the move sequences of that band. */
module Solve3 {
  import opened Wrappers
  import opened Faces
  import opened Config
  import opened Numbers
  import opened Snapshots
  import opened Best
  import BottomEdge
  import Orientations
  import FaceViews
  import Rings
  import Rows

  type Color = BottomEdge.Color

  // The sub-stages, heaviest first.

  const Band := 0x10000
  const TopEdgeBand := 6 * Band
  const TopCornerBand := 5 * Band
  const SideEdgeBand := 4 * Band
  const CornerPositionBand := 3 * Band
  const CornerTwistBand := 2 * Band
  const BottomEdgeBand := 1 * Band

  /** `weight - weight % SubStage.Weight`: the band a weight lies in (`%` truncates, as in
      JavaScript). */
  function SubStageOf(weight: int): int
  {
    weight - JsRem(weight, Band)
  }

  // Reading the cube.

  /** `getStandardFace(f).get(i, j)` of a cube: the sticker at `(i, j)` of labelled face `f`. */
  type Reader = (Face, int, int) -> Color

  /** `ring.getRow(m).get(k)` of the ring of the layer below the top. */
  type RowReader = (int, int) -> Color

  /** `getStandardFace(f).get(i, j)`: a sticker of a labelled face, nothing outside the buffer. */
  function Look(c: Cube, f: Face, i: int, j: int): Color
  {
    BottomEdge.FaceSticker(c, Orientations.GetStandardFace(c.o, f), i, j)
  }

  /** The ring of the layer below the top. */
  function MiddleRing(c: Cube): Rings.CubeRing
  {
    Orientations.GetStandardRing(c.o, Top, 1)
  }

  /** `ring.getRow(m).get(k)` of the middle ring, read from the cube (nothing for a row the
      ring does not have). */
  function RowLook(c: Cube, m: int, k: int): Color
  {
    if 0 <= m < 4 then Read(c, Rows.Index(Rings.RowAt(MiddleRing(c), m), k)) else None
  }

  function FaceReader(c: Cube): Reader
  {
    (f: Face, i: int, j: int) => Look(c, f, i, j)
  }

  function RingReader(c: Cube): RowReader
  {
    (m: int, k: int) => RowLook(c, m, k)
  }

  /** The colour a labelled face should have: its centre on cubes larger than 2, otherwise the
      physical face it labels (`mapFace`), which is the colour of that face when solved. */
  function Reference(c: Cube, f: Face): Color
  {
    if Size(c) > 2 then Look(c, f, 1, 1) else Some(Orientations.MapFace(c.o, f) as Int8)
  }

  /** The reference colours of the six labelled faces. */
  datatype Palette = Palette(left: Color, right: Color, bottom: Color, top: Color, back: Color, front: Color)

  function PaletteOf(c: Cube): Palette
  {
    Palette(Reference(c, Left), Reference(c, Right), Reference(c, Bottom), Reference(c, Top),
      Reference(c, Back), Reference(c, Front))
  }

  /** The reference colour of a labelled face. */
  function ColourOf(p: Palette, f: Face): Color
  {
    match f
    case 0 => p.left
    case 1 => p.right
    case 2 => p.bottom
    case 3 => p.top
    case 4 => p.back
    case _ => p.front
  }

  /** The side colours in the order the sub-stages walk round: left, front, right, back. */
  function Expected(p: Palette): (r: seq<Color>)
    ensures |r| == 4
  {
    [p.left, p.front, p.right, p.back]
  }

  // Top edges. Below, `n` is the last index of a face, `size - 1`.

  /** `actual`: for each top edge whose top sticker has the top colour, its side sticker;
      nothing (`null`) for the others. */
  function TopEdges(look: Reader, n: int, p: Palette): (r: seq<Option<Color>>)
    ensures |r| == 4
  {
    [ if look(Top, 1, 0) == p.top then Some(look(Left, 0, 1)) else None,
      if look(Top, n, 1) == p.top then Some(look(Front, 1, n)) else None,
      if look(Top, 1, n) == p.top then Some(look(Right, n, 1)) else None,
      if look(Top, 0, 1) == p.top then Some(look(Back, 1, n)) else None ]
  }

  /** An edge counts one less when its side sticker matches, one more when it does not, and
      nothing when its top sticker is not the top colour. */
  function EdgeTerm(a: Option<Color>, e: Color): int
  {
    if a.None? then 0 else if a.value == e then -1 else 1
  }

  /** The weight of the first `k` edges against the side colours turned by `angle`. */
  function Tally(actual: seq<Option<Color>>, wanted: seq<Color>, angle: int, k: int): int
    requires |actual| == 4 && |wanted| == 4 && 0 <= angle && 0 <= k <= 4
  {
    if k == 0 then 4 else Tally(actual, wanted, angle, k - 1) + EdgeTerm(actual[k - 1], wanted[(k - 1 + angle) % 4])
  }

  /** The least weight over the first `a` turns. */
  function LeastTally(actual: seq<Option<Color>>, wanted: seq<Color>, a: int): int
    requires |actual| == 4 && |wanted| == 4 && 1 <= a <= 4
  {
    if a == 1 then Tally(actual, wanted, 0, 4)
    else
      var t := Tally(actual, wanted, a - 1, 4);
      var l := LeastTally(actual, wanted, a - 1);
      if t < l then t else l
  }

  /** The top-edge score: the best of the four turns of the side colours. */
  function TopEdgeScore(look: Reader, n: int, p: Palette): int
  {
    LeastTally(TopEdges(look, n, p), Expected(p), 4)
  }

  /** All four top edges sit with their top sticker up and their side sticker on the side
      colour `angle` places on. */
  predicate EdgesMatch(actual: seq<Option<Color>>, wanted: seq<Color>, angle: int)
    requires |actual| == 4 && |wanted| == 4 && 0 <= angle
  {
    forall i :: 0 <= i < 4 ==> actual[i] == Some(wanted[(i + angle) % 4])
  }

  // Top corners and side edges.

  /** `edges`: the side stickers of the top edges on cubes larger than 2, otherwise the side
      colours. */
  function CornerEdges(look: Reader, big: bool, n: int, p: Palette): (r: seq<Color>)
    ensures |r| == 4
  {
    if big then [look(Left, 0, 1), look(Front, 1, n), look(Right, n, 1), look(Back, 1, n)]
    else Expected(p)
  }

  /** A top corner: the colour of the edge beside it, its top sticker, and its two side
      stickers (the one towards that edge first). */
  datatype TopCorner = TopCorner(edge: Color, top: Color, left: Color, right: Color)

  /** `topCorners`. */
  function TopCorners(look: Reader, n: int, e: seq<Color>): (r: seq<TopCorner>)
    requires |e| == 4
    ensures |r| == 4
  {
    [ TopCorner(e[0], look(Top, n, 0), look(Left, 0, n), look(Front, 0, n)),
      TopCorner(e[1], look(Top, n, n), look(Front, n, n), look(Right, n, n)),
      TopCorner(e[2], look(Top, 0, n), look(Right, n, 0), look(Back, 0, n)),
      TopCorner(e[3], look(Top, 0, 0), look(Back, n, n), look(Left, 0, 0)) ]
  }

  /** A corner in place (top sticker up, side sticker on its edge's colour) counts two less;
      one showing the top colour anywhere else counts two more. */
  function CornerTerm(q: TopCorner, top: Color): int
  {
    if q.top == top && q.left == q.edge then -2
    else if q.top == top || q.left == top || q.right == top then 2
    else 0
  }

  function CornerSum(qs: seq<TopCorner>, top: Color, k: int): int
    requires |qs| == 4 && 0 <= k <= 4
  {
    if k == 0 then 0 else CornerSum(qs, top, k - 1) + CornerTerm(qs[k - 1], top)
  }

  /** `cornerWeight` of the top corners: 8 plus the corner terms, and one more when the left
      edge is not on the left colour. */
  function CornerWeight(look: Reader, big: bool, n: int, p: Palette): int
  {
    var e := CornerEdges(look, big, n, p);
    8 + CornerSum(TopCorners(look, n, e), p.top, 4) + (if e[0] != p.left then 1 else 0)
  }

  /** A side edge between row `i` and the next row of the middle ring counts one less when both
      its stickers match their centres, one more when it shows no bottom colour. */
  function SideTerm(rows: RowReader, n: int, i: int, bottom: Color): int
  {
    var j := (i + 1) % 4;
    if rows(i, 1) == rows(i, n) && rows(j, 0) == rows(j, 1) then -1
    else if rows(i, n) != bottom && rows(j, 0) != bottom then 1
    else 0
  }

  function SideSum(rows: RowReader, n: int, bottom: Color, k: int): int
    requires 0 <= k <= 4
  {
    if k == 0 then 0 else SideSum(rows, n, bottom, k - 1) + SideTerm(rows, n, k - 1, bottom)
  }

  /** `sideWeight`: 4 plus the side terms on cubes larger than 2, nothing otherwise. */
  function SideWeight(rows: RowReader, big: bool, n: int, p: Palette): int
  {
    if big then 4 + SideSum(rows, n, p.bottom, 4) else 0
  }

  // Bottom corners.

  /** A bottom corner: its bottom sticker, then its two side stickers going round. */
  datatype BottomCorner = BottomCorner(under: Color, first: Color, second: Color)

  /** `bottomCorners`. */
  function BottomCorners(look: Reader, n: int): (r: seq<BottomCorner>)
    ensures |r| == 4
  {
    [ BottomCorner(look(Bottom, 0, 0), look(Front, 0, 0), look(Left, n, n)),
      BottomCorner(look(Bottom, 0, n), look(Right, 0, n), look(Front, n, 0)),
      BottomCorner(look(Bottom, n, n), look(Back, 0, 0), look(Right, 0, 0)),
      BottomCorner(look(Bottom, n, 0), look(Left, n, 0), look(Back, n, 0)) ]
  }

  /** Whether a corner belongs at the place whose colour is `e`: the sticker following the
      bottom-coloured one, going round the corner, is `e`. */
  predicate CornerFits(t: BottomCorner, bottom: Color, e: Color)
  {
    if t.under == bottom then t.second == e
    else if t.first == bottom then t.under == e
    else t.first == e
  }

  /** Every bottom corner belongs where the side colours turned by `angle` put it. */
  predicate Aligned(ts: seq<BottomCorner>, bottom: Color, expected: seq<Color>, angle: int)
    requires |ts| == 4 && |expected| == 4 && angle >= 0
  {
    forall i :: 0 <= i < 4 ==> CornerFits(ts[i], bottom, expected[(i + angle) % 4])
  }

  /** The bottom-corner position weight: nothing when some turn of the side colours puts every
      corner in its place, otherwise 1. */
  function PositionWeight(look: Reader, n: int, p: Palette): int
  {
    if exists a :: 0 <= a < 4 && Aligned(BottomCorners(look, n), p.bottom, Expected(p), a) then 0 else 1
  }

  /** How many of the first `k` bottom corners show the bottom colour underneath. */
  function BottomCount(ts: seq<BottomCorner>, bottom: Color, k: int): (r: nat)
    requires |ts| == 4 && 0 <= k <= 4
    ensures r <= k
  {
    if k == 0 then 0 else BottomCount(ts, bottom, k - 1) + (if ts[k - 1].under == bottom then 1 else 0)
  }

  /** The twist weight from the number of corners the right way up: 4, 2, 4 or 0 for 0, 1, 2
      or 4 of them (3 keeps the 0 left by the position check). */
  function TwistScore(k: int): int
  {
    if k == 0 || k == 2 then 4 else if k == 1 then 2 else 0
  }

  /** The bottom-corner twist weight, one more when the first corner's side sticker is not the
      left colour. */
  function TwistWeight(look: Reader, n: int, p: Palette): (r: int)
    ensures 0 <= r <= 5
  {
    var ts := BottomCorners(look, n);
    TwistScore(BottomCount(ts, p.bottom, 4)) + (if ts[0].second != p.left then 1 else 0)
  }

  // Bottom edges.

  /** `edges` of the last sub-stage: each bottom edge's bottom sticker and side sticker. */
  function BottomEdges(look: Reader, n: int): BottomEdge.Edges
  {
    [ BottomEdge.Edge(look(Bottom, 1, 0), look(Left, n, 1)),
      BottomEdge.Edge(look(Bottom, 0, 1), look(Front, 1, 0)),
      BottomEdge.Edge(look(Bottom, 1, n), look(Right, 0, 1)),
      BottomEdge.Edge(look(Bottom, n, 1), look(Back, 1, 0)) ]
  }

  /** The colours the bottom edges are matched against: the side colours, then the bottom. */
  function EdgeColors(p: Palette): BottomEdge.Colors
  {
    Expected(p) + [p.bottom]
  }

  /** `edgeWeight` from the counts of correct and of wrongly placed, flipped edges; three or
      four correct edges weigh nothing. */
  function EdgeScore(correct: int, wrongFlipped: int): (r: int)
    ensures 0 <= r <= 3
    ensures r == 0 <==> correct > 2 || correct < 0
  {
    if correct == 2 then 2
    else if correct == 1 then (if wrongFlipped > 0 then 1 else 2)
    else if correct == 0 then (if wrongFlipped > 0 then 2 else 3)
    else 0
  }

  function EdgeWeight(look: Reader, n: int, p: Palette): int
  {
    var e, k := BottomEdges(look, n), EdgeColors(p);
    EdgeScore(BottomEdge.Count(e, k, BottomEdge.Correct), BottomEdge.Count(e, k, BottomEdge.WrongFlipped))
  }

  // The weight.

  /** The scores of the sub-stages, and whether the cube is larger than 2. */
  datatype Scores = Scores(big: bool, top: int, corner: int, side: int, position: int, twist: int, edge: int)

  /** The scores of a cube of the given size, read through `look` and `rows`. */
  function ScoresIn(look: Reader, rows: RowReader, size: int, p: Palette): Scores
  {
    var big, n := size > 2, size - 1;
    Scores(big, TopEdgeScore(look, n, p), CornerWeight(look, big, n, p), SideWeight(rows, big, n, p),
      PositionWeight(look, n, p), TwistWeight(look, n, p), EdgeWeight(look, n, p))
  }

  function ScoresOf(c: Cube): Scores
  {
    ScoresIn(FaceReader(c), RingReader(c), Size(c), PaletteOf(c))
  }

  /** The weight from the scores: the band of the first sub-stage whose score is positive, plus
      that score (the top-corner band also carries the side score). The top and bottom edges
      only count on cubes larger than 2. */
  function WeightOf(s: Scores): int
  {
    if s.big && s.top > 0 then TopEdgeBand + s.top
    else if s.corner > 0 then TopCornerBand + s.corner * 16 + s.side
    else if s.side > 0 then SideEdgeBand + s.side
    else if s.position > 0 then CornerPositionBand + s.position
    else if s.twist > 0 then CornerTwistBand + s.twist
    else if s.big && s.edge > 0 then BottomEdgeBand + s.edge
    else 0
  }

  /** `Solve3Model.weigh(cube)`. */
  function Weigh(c: Cube): int
  {
    WeightOf(ScoresOf(c))
  }

  // The scores' ranges.

  /** Each edge moves the tally by at most one, and the tally of `k` edges is at its least
      exactly when all of them match. */
  lemma {:induction false} TallyRange(actual: seq<Option<Color>>, wanted: seq<Color>, angle: int, k: int)
    requires |actual| == 4 && |wanted| == 4 && 0 <= angle && 0 <= k <= 4
    ensures 4 - k <= Tally(actual, wanted, angle, k) <= 4 + k
    ensures Tally(actual, wanted, angle, k) == 4 - k <==>
      forall i :: 0 <= i < k ==> actual[i] == Some(wanted[(i + angle) % 4])
  {
    if k > 0 {
      TallyRange(actual, wanted, angle, k - 1);
    }
  }

  /** The least tally over the first `a` turns is one of them and no more than any of them. */
  lemma {:induction false} LeastTallyIsLeast(actual: seq<Option<Color>>, wanted: seq<Color>, a: int)
    requires |actual| == 4 && |wanted| == 4 && 1 <= a <= 4
    ensures forall t :: 0 <= t < a ==> LeastTally(actual, wanted, a) <= Tally(actual, wanted, t, 4)
    ensures exists t :: 0 <= t < a && LeastTally(actual, wanted, a) == Tally(actual, wanted, t, 4)
  {
    if a > 1 {
      LeastTallyIsLeast(actual, wanted, a - 1);
      var t :| 0 <= t < a - 1 && LeastTally(actual, wanted, a - 1) == Tally(actual, wanted, t, 4);
      if Tally(actual, wanted, a - 1, 4) < LeastTally(actual, wanted, a - 1) {
        assert LeastTally(actual, wanted, a) == Tally(actual, wanted, a - 1, 4);
      } else {
        assert LeastTally(actual, wanted, a) == Tally(actual, wanted, t, 4);
      }
    } else {
      assert LeastTally(actual, wanted, a) == Tally(actual, wanted, 0, 4);
    }
  }

  /** The top-edge score lies in 0..8, and is 0 exactly when some turn of the side colours
      matches all four top edges, each with its top sticker up. */
  lemma TopEdgeScoreRange(look: Reader, n: int, p: Palette)
    ensures 0 <= TopEdgeScore(look, n, p) <= 8
    ensures TopEdgeScore(look, n, p) == 0 <==> exists a :: 0 <= a < 4 && EdgesMatch(TopEdges(look, n, p), Expected(p), a)
  {
    var actual, wanted := TopEdges(look, n, p), Expected(p);
    LeastTallyIsLeast(actual, wanted, 4);
    forall t | 0 <= t < 4
      ensures 0 <= Tally(actual, wanted, t, 4) <= 8
      ensures Tally(actual, wanted, t, 4) == 0 <==> EdgesMatch(actual, wanted, t)
    {
      TallyRange(actual, wanted, t, 4);
    }
  }

  lemma {:induction false} CornerSumRange(qs: seq<TopCorner>, top: Color, k: int)
    requires |qs| == 4 && 0 <= k <= 4
    ensures -2 * k <= CornerSum(qs, top, k) <= 2 * k
  {
    if k > 0 {
      CornerSumRange(qs, top, k - 1);
    }
  }

  /** The top-corner weight lies in 0..17. */
  lemma CornerWeightRange(look: Reader, big: bool, n: int, p: Palette)
    ensures 0 <= CornerWeight(look, big, n, p) <= 17
  {
    var e := CornerEdges(look, big, n, p);
    CornerSumRange(TopCorners(look, n, e), p.top, 4);
  }

  lemma {:induction false} SideSumRange(rows: RowReader, n: int, bottom: Color, k: int)
    requires 0 <= k <= 4
    ensures -k <= SideSum(rows, n, bottom, k) <= k
  {
    if k > 0 {
      SideSumRange(rows, n, bottom, k - 1);
    }
  }

  /** The side-edge weight lies in 0..8, and is 0 on cubes of size 2 or less. */
  lemma SideWeightRange(rows: RowReader, big: bool, n: int, p: Palette)
    ensures 0 <= SideWeight(rows, big, n, p) <= 8
    ensures !big ==> SideWeight(rows, big, n, p) == 0
  {
    SideSumRange(rows, n, p.bottom, 4);
  }

  // The bands.

  /** The ranges the scores keep. */
  predicate Bounded(s: Scores)
  {
    0 <= s.top <= 8 && 0 <= s.corner <= 17 && 0 <= s.side <= 8 && (!s.big ==> s.side == 0) &&
    0 <= s.position <= 1 && 0 <= s.twist <= 5 && 0 <= s.edge <= 3
  }

  lemma ScoresBounded(look: Reader, rows: RowReader, size: int, p: Palette)
    ensures Bounded(ScoresIn(look, rows, size, p))
  {
    var big, n := size > 2, size - 1;
    TopEdgeScoreRange(look, n, p);
    CornerWeightRange(look, big, n, p);
    SideWeightRange(rows, big, n, p);
  }

  /** The first sub-stage not done: 6 for the top edges down to 1 for the bottom edges, and 0
      when all of them are done. */
  function PendingOf(s: Scores): (k: nat)
    ensures k <= 6
  {
    if s.big && s.top != 0 then 6
    else if s.corner != 0 then 5
    else if s.side != 0 then 4
    else if s.position != 0 then 3
    else if s.twist != 0 then 2
    else if s.big && s.edge != 0 then 1
    else 0
  }

  function Pending(c: Cube): nat
  {
    PendingOf(ScoresOf(c))
  }

  /** A score `r` below the band width added to band `k` lies in band `k`. */
  lemma InBand(k: nat, r: int)
    requires 0 <= r < Band
    ensures k * Band + r >= 0 && JsRem(k * Band + r, Band) == r && SubStageOf(k * Band + r) == k * Band
  {
    var w := k * Band + r;
    assert w >= 0;
    assert w % Band == r by {
      ModMultiple(r, k, Band);
    }
  }

  /** Scores in range give a weight whose band is the first sub-stage not done, with a score
      of at least 1 within the band, and a weight of 0 exactly when every sub-stage is done. */
  lemma BandsOf(s: Scores)
    requires Bounded(s)
    ensures WeightOf(s) >= 0
    ensures SubStageOf(WeightOf(s)) == PendingOf(s) * Band
    ensures PendingOf(s) == 0 <==> WeightOf(s) == 0
    ensures PendingOf(s) > 0 ==> 1 <= WeightOf(s) - SubStageOf(WeightOf(s)) < Band
  {
    match PendingOf(s)
    case 6 => InBand(6, s.top);
    case 5 => InBand(5, s.corner * 16 + s.side);
    case 4 => InBand(4, s.side);
    case 3 => InBand(3, s.position);
    case 2 => InBand(2, s.twist);
    case 1 => InBand(1, s.edge);
    case 0 => InBand(0, 0);
  }

  /** The weight names the first sub-stage not done. */
  lemma WeighBands(c: Cube)
    ensures Weigh(c) >= 0
    ensures SubStageOf(Weigh(c)) == Pending(c) * Band
    ensures Pending(c) == 0 <==> Weigh(c) == 0
    ensures Pending(c) > 0 ==> 1 <= Weigh(c) - SubStageOf(Weigh(c)) < Band
  {
    ScoresBounded(FaceReader(c), RingReader(c), Size(c), PaletteOf(c));
    BandsOf(ScoresOf(c));
  }

  /** On cubes of size 2 or less the weight never lies in the top-edge, side-edge or
      bottom-edge band: those sub-stages need edge pieces. */
  lemma SmallCubeBands(c: Cube)
    requires Size(c) <= 2
    ensures Pending(c) != 6 && Pending(c) != 4 && Pending(c) != 1
  {
    var s := ScoresOf(c);
    ScoresBounded(FaceReader(c), RingReader(c), Size(c), PaletteOf(c));
    assert Bounded(s) && !s.big;
    SmallBands(s);
  }

  lemma SmallBands(s: Scores)
    requires Bounded(s) && !s.big
    ensures PendingOf(s) != 6 && PendingOf(s) != 4 && PendingOf(s) != 1
  {
  }

  // A cube of one colour per face.

  /** Every sticker of every face, read through `look`, has the face's reference colour. */
  predicate Uniform(look: Reader, size: int, p: Palette)
  {
    forall f: Face, i, j | 0 <= i < size && 0 <= j < size :: look(f, i, j) == ColourOf(p, f)
  }

  /** Every row of the middle ring has one colour. */
  predicate UniformRows(rows: RowReader, size: int)
  {
    forall m, k | 0 <= m < 4 && 0 <= k < size :: rows(m, k) == rows(m, 1)
  }

  lemma UniformTopEdges(look: Reader, size: int, p: Palette)
    requires size >= 2 && Uniform(look, size, p)
    ensures TopEdgeScore(look, size - 1, p) == 0
  {
    var n := size - 1;
    assert TopEdges(look, n, p) == [Some(p.left), Some(p.front), Some(p.right), Some(p.back)];
    assert EdgesMatch(TopEdges(look, n, p), Expected(p), 0);
    TopEdgeScoreRange(look, n, p);
  }

  lemma UniformTopCorners(look: Reader, size: int, p: Palette)
    requires size >= 1 && Uniform(look, size, p)
    ensures CornerWeight(look, size > 2, size - 1, p) == 0
  {
    var n := size - 1;
    var e := CornerEdges(look, size > 2, n, p);
    assert e == Expected(p);
    var qs := TopCorners(look, n, e);
    assert qs == [TopCorner(p.left, p.top, p.left, p.front), TopCorner(p.front, p.top, p.front, p.right),
      TopCorner(p.right, p.top, p.right, p.back), TopCorner(p.back, p.top, p.back, p.left)];
    assert CornerSum(qs, p.top, 1) == -2;
    assert CornerSum(qs, p.top, 2) == -4;
    assert CornerSum(qs, p.top, 3) == -6;
  }

  lemma UniformSides(rows: RowReader, size: int, p: Palette)
    requires size >= 2 && UniformRows(rows, size)
    ensures SideWeight(rows, size > 2, size - 1, p) == 0
  {
    var n := size - 1;
    forall i | 0 <= i < 4
      ensures SideTerm(rows, n, i, p.bottom) == -1
    {
      var j := (i + 1) % 4;
      assert rows(i, n) == rows(i, 1) && rows(j, 0) == rows(j, 1);
    }
    assert SideSum(rows, n, p.bottom, 1) == -1;
    assert SideSum(rows, n, p.bottom, 2) == -2;
    assert SideSum(rows, n, p.bottom, 3) == -3;
  }

  lemma UniformBottomCorners(look: Reader, size: int, p: Palette)
    requires size >= 1 && Uniform(look, size, p)
    ensures PositionWeight(look, size - 1, p) == 0
    ensures TwistWeight(look, size - 1, p) == 0
  {
    var n := size - 1;
    var ts := BottomCorners(look, n);
    assert ts == [BottomCorner(p.bottom, p.front, p.left), BottomCorner(p.bottom, p.right, p.front),
      BottomCorner(p.bottom, p.back, p.right), BottomCorner(p.bottom, p.left, p.back)];
    assert Aligned(ts, p.bottom, Expected(p), 0);
    assert BottomCount(ts, p.bottom, 2) == 2;
    assert BottomCount(ts, p.bottom, 3) == 3;
  }

  lemma UniformBottomEdges(look: Reader, size: int, p: Palette)
    requires size >= 2 && Uniform(look, size, p)
    ensures EdgeWeight(look, size - 1, p) == 0
  {
    var e, k := BottomEdges(look, size - 1), EdgeColors(p);
    BottomEdge.CountAll(e, k, BottomEdge.Correct, 4);
  }

  /** A cube whose every face has its reference colour all over weighs nothing. */
  lemma UniformWeighsNothing(look: Reader, rows: RowReader, size: int, p: Palette)
    requires size >= 1 && Uniform(look, size, p) && (size > 2 ==> UniformRows(rows, size))
    ensures WeightOf(ScoresIn(look, rows, size, p)) == 0
  {
    UniformTopCorners(look, size, p);
    UniformBottomCorners(look, size, p);
    if size > 2 {
      UniformTopEdges(look, size, p);
      UniformSides(rows, size, p);
      UniformBottomEdges(look, size, p);
    }
  }

  // The solved cube.

  /** A cube of size 1 or more whose buffer is the solved one. */
  predicate Solved(c: Cube)
  {
    WellFormed(c) && Size(c) >= 1 && c.data == SolvedData(Size(c))
  }

  /** On a solved cube every sticker of a labelled face has the colour of the physical face. */
  lemma SolvedLook(c: Cube, f: Face, i: int, j: int)
    requires Solved(c) && 0 <= i < Size(c) && 0 <= j < Size(c)
    ensures Look(c, f, i, j) == Some(Orientations.MapFace(c.o, f) as Int8)
  {
    var n, g := Size(c), Orientations.MapFace(c.o, f);
    var v := Orientations.GetStandardFace(c.o, f);
    Orientations.GetStandardFaceValid(c.o, f);
    FaceViews.ViewInBlock(n, g, v, i, j);
    BottomEdge.SolvedBlock(n, g, FaceViews.Index(v, i, j));
  }

  /** On a solved cube the reference colour of a labelled face is that of the physical face. */
  lemma SolvedColour(c: Cube, f: Face)
    requires Solved(c)
    ensures ColourOf(PaletteOf(c), f) == Some(Orientations.MapFace(c.o, f) as Int8)
  {
    PaletteColour(c, f);
    if Size(c) > 2 {
      SolvedLook(c, f, 1, 1);
    }
  }

  /** The palette holds the reference colour of each labelled face. */
  lemma PaletteColour(c: Cube, f: Face)
    ensures ColourOf(PaletteOf(c), f) == Reference(c, f)
  {
    var p := PaletteOf(c);
    match f
    case 0 => assert p.left == Reference(c, Left);
    case 1 => assert p.right == Reference(c, Right);
    case 2 => assert p.bottom == Reference(c, Bottom);
    case 3 => assert p.top == Reference(c, Top);
    case 4 => assert p.back == Reference(c, Back);
    case 5 => assert p.front == Reference(c, Front);
  }

  /** On a solved cube each face has its reference colour all over. */
  lemma SolvedUniform(c: Cube)
    requires Solved(c)
    ensures Uniform(FaceReader(c), Size(c), PaletteOf(c))
  {
    forall f: Face, i, j | 0 <= i < Size(c) && 0 <= j < Size(c)
      ensures FaceReader(c)(f, i, j) == ColourOf(PaletteOf(c), f)
    {
      SolvedLook(c, f, i, j);
      SolvedColour(c, f);
    }
  }

  /** On a solved cube all the stickers of a row of the middle ring have one colour. */
  lemma SolvedRow(c: Cube, m: int, k: int)
    requires Solved(c) && Size(c) > 2 && 0 <= m < 4 && 0 <= k < Size(c)
    ensures RowLook(c, m, k) == RowLook(c, m, 1)
  {
    var n, o := Size(c), c.o;
    var iFrom, jFrom := Orientations.MapFace(o, Back), Orientations.MapFace(o, Left);
    var f := Rings.RowFace(iFrom, jFrom, m);
    Rings.MakeRowsOn(n, Orientations.MapFace(o, Top), 1, iFrom, jFrom);
    var r := Rings.RowAt(MiddleRing(c), m);
    assert Rows.InBlock(n, f, r);
    BottomEdge.SolvedBlock(n, f, Rows.Index(r, k));
    BottomEdge.SolvedBlock(n, f, Rows.Index(r, 1));
  }

  lemma SolvedRows(c: Cube)
    requires Solved(c) && Size(c) > 2
    ensures UniformRows(RingReader(c), Size(c))
  {
    forall m, k | 0 <= m < 4 && 0 <= k < Size(c)
      ensures RingReader(c)(m, k) == RingReader(c)(m, 1)
    {
      SolvedRow(c, m, k);
    }
  }

  /** A solved cube weighs nothing, whatever labels it is seen through. */
  lemma SolvedWeighsNothing(c: Cube)
    requires Solved(c)
    ensures Weigh(c) == 0
  {
    SolvedUniform(c);
    if Size(c) > 2 {
      SolvedRows(c);
    }
    UniformWeighsNothing(FaceReader(c), RingReader(c), Size(c), PaletteOf(c));
  }

  // The weight of a copy.

  /** The scores depend only on the stickers read, not on how they are read. */
  lemma ScoresAgree(look: Reader, rows: RowReader, look': Reader, rows': RowReader, size: int, p: Palette)
    requires forall f, i, j :: look(f, i, j) == look'(f, i, j)
    requires forall m, k :: rows(m, k) == rows'(m, k)
    ensures ScoresIn(look, rows, size, p) == ScoresIn(look', rows', size, p)
  {
    var big, n := size > 2, size - 1;
    assert TopEdges(look, n, p) == TopEdges(look', n, p);
    assert CornerEdges(look, big, n, p) == CornerEdges(look', big, n, p);
    var e := CornerEdges(look, big, n, p);
    assert TopCorners(look, n, e) == TopCorners(look', n, e);
    assert BottomCorners(look, n) == BottomCorners(look', n);
    assert BottomEdges(look, n) == BottomEdges(look', n);
    assert SideSum(rows, n, p.bottom, 1) == SideSum(rows', n, p.bottom, 1);
    assert SideSum(rows, n, p.bottom, 2) == SideSum(rows', n, p.bottom, 2);
    assert SideSum(rows, n, p.bottom, 3) == SideSum(rows', n, p.bottom, 3);
    assert SideSum(rows, n, p.bottom, 4) == SideSum(rows', n, p.bottom, 4);
  }

  /** The same stickers seen through the same labels on a cube of the same size weigh the same,
      whichever cube object the labels are attached to: a clone weighs as its original. */
  lemma WeighRelabel(c: Cube, o: Orientations.CubeOrientation)
    requires Orientations.LabelsOf(o) == Orientations.LabelsOf(c.o) && o.config.size == Size(c)
    ensures Weigh(Relabel(c, o)) == Weigh(c)
  {
    var d := Relabel(c, o);
    forall f: Face, i, j
      ensures FaceReader(d)(f, i, j) == FaceReader(c)(f, i, j)
    {
      assert Orientations.GetStandardFace(o, f) == Orientations.GetStandardFace(c.o, f);
    }
    forall m, k
      ensures RingReader(d)(m, k) == RingReader(c)(m, k)
    {
      assert MiddleRing(d) == MiddleRing(c);
    }
    assert PaletteOf(d) == PaletteOf(c) by {
      forall f: Face
        ensures Reference(d, f) == Reference(c, f)
      {
        assert Orientations.GetStandardFace(o, f) == Orientations.GetStandardFace(c.o, f);
      }
    }
    ScoresAgree(FaceReader(d), RingReader(d), FaceReader(c), RingReader(c), Size(c), PaletteOf(c));
  }

  // `weigh` as the source computes it, loop by loop.

  /** The top-edge loop: `best` starts at infinity and keeps the least tally of each turn. */
  method LeastOverTurns(actual: seq<Option<Color>>, wanted: seq<Color>) returns (best: int)
    requires |actual| == 4 && |wanted| == 4
    ensures best == LeastTally(actual, wanted, 4)
  {
    var least: Weight := Infinite;
    for angle := 0 to 4
      invariant angle == 0 ==> least == Infinite
      invariant angle > 0 ==> least == Finite(LeastTally(actual, wanted, angle))
    {
      var weight := 4;
      for i := 0 to 4
        invariant weight == Tally(actual, wanted, angle, i)
      {
        if actual[i].Some? {
          if actual[i].value == wanted[(i + angle) % 4] {
            weight := weight - 1;
          } else {
            weight := weight + 1;
          }
        }
      }
      if Below(Finite(weight), least) {
        least := Finite(weight);
      }
    }
    best := least.value;
  }

  /** The top-corner loop, before the check of the left edge. */
  method CornerLoop(qs: seq<TopCorner>, top: Color) returns (w: int)
    requires |qs| == 4
    ensures w == 8 + CornerSum(qs, top, 4)
  {
    w := 8;
    for k := 0 to 4
      invariant w == 8 + CornerSum(qs, top, k)
    {
      var q := qs[k];
      if q.top == top && q.left == q.edge {
        w := w - 2;
      } else if q.top == top || q.left == top || q.right == top {
        w := w + 2;
      }
    }
  }

  /** The side-edge loop over the rows of the middle ring. */
  method SideLoop(rows: RowReader, n: int, bottom: Color) returns (w: int)
    ensures w == 4 + SideSum(rows, n, bottom, 4)
  {
    w := 4;
    for i := 0 to 4
      invariant w == 4 + SideSum(rows, n, bottom, i)
    {
      var j := (i + 1) % 4;
      if rows(i, 1) == rows(i, n) && rows(j, 0) == rows(j, 1) {
        w := w - 1;
      } else if rows(i, n) != bottom && rows(j, 0) != bottom {
        w := w + 1;
      }
    }
  }

  /** The bottom-corner position loop: 0 at the first turn that puts every corner in place. */
  method PositionLoop(ts: seq<BottomCorner>, bottom: Color, expected: seq<Color>) returns (w: int)
    requires |ts| == 4 && |expected| == 4
    ensures w == 0 <==> exists a :: 0 <= a < 4 && Aligned(ts, bottom, expected, a)
    ensures w == 0 || w == 1
  {
    w := 1;
    var angle := 0;
    while angle < 4
      invariant 0 <= angle <= 4
      invariant w == 1 ==> forall a :: 0 <= a < angle ==> !Aligned(ts, bottom, expected, a)
      invariant w == 0 ==> angle < 4 && Aligned(ts, bottom, expected, angle)
      invariant w == 0 || w == 1
      decreases 4 - angle, w
    {
      var correct := true;
      for i := 0 to 4
        invariant correct <==> forall k :: 0 <= k < i ==> CornerFits(ts[k], bottom, expected[(k + angle) % 4])
      {
        var t := ts[i];
        if t.under == bottom {
          correct := correct && t.second == expected[(i + angle) % 4];
        } else if t.first == bottom {
          correct := correct && t.under == expected[(i + angle) % 4];
        } else {
          correct := correct && t.first == expected[(i + angle) % 4];
        }
      }
      if correct {
        assert Aligned(ts, bottom, expected, angle);
        w := 0;
        break;
      }
      angle := angle + 1;
    }
  }

  /** How many bottom corners show the bottom colour underneath. */
  method CountUnder(ts: seq<BottomCorner>, bottom: Color) returns (k: int)
    requires |ts| == 4
    ensures k == BottomCount(ts, bottom, 4)
  {
    k := 0;
    for i := 0 to 4
      invariant k == BottomCount(ts, bottom, i)
    {
      if ts[i].under == bottom {
        k := k + 1;
      }
    }
  }

  /** The bottom-edge loop: the correct edges, and the misplaced ones neither flipped in place
      nor showing the bottom colour underneath. */
  method CountEdges(e: BottomEdge.Edges, expected: BottomEdge.Colors) returns (correct: int, wrongFlipped: int)
    ensures correct == BottomEdge.Count(e, expected, BottomEdge.Correct)
    ensures wrongFlipped == BottomEdge.Count(e, expected, BottomEdge.WrongFlipped)
  {
    correct, wrongFlipped := 0, 0;
    for i := 0 to 4
      invariant correct == BottomEdge.CountUpTo(e, expected, BottomEdge.Correct, i)
      invariant wrongFlipped == BottomEdge.CountUpTo(e, expected, BottomEdge.WrongFlipped, i)
    {
      if e[i].side == expected[i] {
        correct := correct + 1;
      } else if e[i].bottom != expected[4] && e[i].bottom != expected[i] {
        wrongFlipped := wrongFlipped + 1;
      }
    }
  }

  /** `Solve3Model.weigh` once the reference colours are known: each sub-stage in turn,
      returning at the first one not done. */
  method WeighScores(look: Reader, rows: RowReader, size: int, p: Palette) returns (w: int)
    ensures w == WeightOf(ScoresIn(look, rows, size, p))
  {
    var big, n := size > 2, size - 1;
    var expected := Expected(p);
    if big {
      var best := LeastOverTurns(TopEdges(look, n, p), expected);
      if best > 0 {
        return TopEdgeBand + best;
      }
    }
    var edges := CornerEdges(look, big, n, p);
    var cornerWeight := CornerLoop(TopCorners(look, n, edges), p.top);
    if edges[0] != p.left {
      cornerWeight := cornerWeight + 1;
    }
    var sideWeight := 0;
    if big {
      sideWeight := SideLoop(rows, n, p.bottom);
    }
    if cornerWeight > 0 {
      return TopCornerBand + cornerWeight * 16 + sideWeight;
    }
    if sideWeight > 0 {
      return SideEdgeBand + sideWeight;
    }
    var bottomCorners := BottomCorners(look, n);
    cornerWeight := PositionLoop(bottomCorners, p.bottom, expected);
    if cornerWeight > 0 {
      return CornerPositionBand + cornerWeight;
    }
    var correctCorners := CountUnder(bottomCorners, p.bottom);
    if correctCorners == 0 || correctCorners == 2 {
      cornerWeight := 4;
    } else if correctCorners == 1 {
      cornerWeight := 2;
    } else if correctCorners == 4 {
      cornerWeight := 0;
    }
    if bottomCorners[0].second != expected[0] {
      cornerWeight := cornerWeight + 1;
    }
    if cornerWeight > 0 {
      return CornerTwistBand + cornerWeight;
    }
    if big {
      var correct, wrongFlipped := CountEdges(BottomEdges(look, n), EdgeColors(p));
      var edgeWeight := 0;
      if correct == 2 {
        edgeWeight := 2;
      } else if correct == 1 {
        edgeWeight := if wrongFlipped > 0 then 1 else 2;
      } else if correct == 0 {
        edgeWeight := if wrongFlipped > 0 then 2 else 3;
      }
      if edgeWeight > 0 {
        return BottomEdgeBand + edgeWeight;
      }
    }
    return 0;
  }

  /** `Solve3Model.weigh(cube)`. */
  method WeighCube(c: Cube) returns (w: int)
    ensures w == Weigh(c)
  {
    w := WeighScores(FaceReader(c), RingReader(c), Size(c), PaletteOf(c));
  }

  // The move sequences of each sub-stage.

  /** `getSequences`: the moves tried in the band of `weight`; none outside the six bands. */
  function SequenceTexts(weight: int): (r: seq<string>)
    ensures |r| > 0 <==> exists k :: 1 <= k <= 6 && SubStageOf(weight) == k * Band
    ensures SubStageOf(weight) == TopEdgeBand ==> |r| == 16
    ensures SubStageOf(weight) == TopCornerBand ==> |r| == 14
    ensures SubStageOf(weight) == SideEdgeBand ==> |r| == 4
    ensures SubStageOf(weight) == CornerPositionBand ==> |r| == 2
    ensures SubStageOf(weight) == CornerTwistBand ==> |r| == 4
    ensures SubStageOf(weight) == BottomEdgeBand ==> |r| == 3
  {
    var band := SubStageOf(weight);
    if band == TopEdgeBand then
      ["L", "UL", "U2L", "U'L",
       "L2", "DL2", "D2L2",
       "FL", "FUL", "FU2L", "FU'L",
       "F'L", "F'LF", "F'U'L", "UF'L", "UF'LF"]
    else if band == TopCornerBand then
      ["U", "U2",
       "FDF'", "DFDF'", "D2FDF'", "D'FDF'",
       "FD'F'", "DFD'F'", "D2FD'F'", "D'FD'F'",
       "FDF'L'D'L", "DFDF'L'D'L", "D2FDF'L'D'L", "D'FDF'L'D'L"]
    else if band == SideEdgeBand then
      ["FDF'D'L'D'L", "DFDF'D'L'D'L", "D2FDF'D'L'D'L", "D'FDF'D'L'D'L"]
    else if band == CornerPositionBand then
      ["RDR'F'D'FRD'R'", "RDR'F'D2FRD'R'"]
    else if band == CornerTwistBand then
      ["D", "D2", "RDR'DRD2R'", "RD2R'D'RD'R'"]
    else if band == BottomEdgeBand then
      ["B'D'BDBF'L'B'LF", "F'L'BLB'FD'B'DB", "LR'F'RL'D2LR'F'RL'"]
    else []
  }

  /** A cube has sequences to try exactly while some sub-stage is not done: the stage never
      stops short of a weight of 0 for want of moves. */
  lemma SequencesWhilePending(c: Cube)
    ensures |SequenceTexts(Weigh(c))| > 0 <==> Weigh(c) != 0
  {
    WeighBands(c);
    if |SequenceTexts(Weigh(c))| > 0 {
      var k :| 1 <= k <= 6 && SubStageOf(Weigh(c)) == k * Band;
    }
  }
}
