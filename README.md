# puzzlecube: the sticker model and the staged solver

This project models the core of puzzlecube, a browser Rubik's-cube toy, and proves properties of
the model.

The cube of side `size` is a flat buffer of `6·size²` colours, one block of `size²` per face
(`Left, Right, Bottom, Top, Back, Front` = 0..5). A face id packs an axis (`face & 6`) and a sign
bit (`face & 1`). Several things sit on top of that buffer:

- Views. `CubeRow`, `CubeFace` and `CubeRing` are `(offset, step…)` index maps into the buffer.
  They read it and write it through `getValues`/`setValues`.
- Moves. `CubeAction.act` turns a layer. It writes the layer's ring back through a rotated ring,
  and writes the outer faces back through rotated face views. `invert` negates its angle.
- Orientations. `CubeOrientation` relabels the faces as `(right, top, front)`. It composes with
  `reorient` and turns with `rotate`, and `isInverse()` is its handedness. `getAction` turns a
  labelled move into a physical one.
- The solver. It has these parts:
  - `Sequence` parses move notation (`R U' F2 L(3)+1:2`).
  - `runProcess` is a second, smaller notation with `$k` parameters.
  - `Best`/`BestOption` are the choosers.
  - `Stage.runStage` is a greedy loop. Each round applies the candidate that lowers the model's
    weight most, and it stops when the weight is 0 or nothing lowers it.
  - `Solve3Model` is the layer-by-layer weight with its move tables.
  - The bottom-edge stage works on an abstract model of the four bottom edges.
  - `solveCube` starts the solver.
- The legacy cube (`src/cube`). This is an older buffer model with ring index tables
  (`CubeSlice.getRing`), `CubeConfig.adjust`/`adjustFace`, and the `Cube` undo/redo stacks with an
  actor that feeds it moves.

How the model is built:

- The buffer is a `class CubeConfig` holding an `array<Int8>`.
- Methods that write it (`SetValues`, `Act`, `Adjust`, `AdjustFace`) are proved equal to spec
  functions on sequences. Every property is proved about those functions:
  - round-trips;
  - permutation;
  - undo;
  - the cells a move touches.
- Views are values: `offset` and steps, with the buffer passed in.
- Orientations are values that share the config by reference.
- Solver stages work on snapshots: an orientation together with the buffer's contents.
- `runStage` is modelled generically. Its abstract methods become fields of a `Stage` datatype,
  and it is instantiated with the bottom-edge stage.
- Generators become sequences, so a stage's yielded actions are applied by the engine itself
  (`perform`).

## Model

| member | source | states |
|---|---|---|
| Numbers.NormalizeInt | src/util/number.ts:5-8 | for N > 0 the result lies in [0, N) and is the mathematical (Euclidean) remainder of i |
| Numbers.JsRem | src/util/number.ts:6 | JavaScript `%`: the remainder is smaller than N in magnitude and has the sign of i |
| Numbers.JsRemCongruent | src/util/number.ts:6 | the JavaScript remainder is congruent to i modulo N |
| Numbers.NormalizeIdentity | src/util/number.ts:6-7 | identity on 0 ≤ i < N |
| Numbers.NormalizeIdempotent | src/util/number.ts:5-8 | normalising twice equals normalising once |
| Numbers.NormalizeCongruent | src/util/number.ts:6-7 | the result is congruent to i modulo N |
| Numbers.NormalizeAdd | src/util/number.ts:5-8 | normalising a + normalize(b) mod 4 equals normalising a + b |
| Faces.AxisOf | src/model/config.ts:5-23 | `face & Axis` is one of X = 0, Y = 2, Z = 4, and the face is that axis or axis + 1 |
| Faces.SignOf | src/model/config.ts:13-23 | the sign bit is 0 or 1, and face = axis + sign |
| Faces.Opposite | src/model/config.ts:13-23 | `face ^ Positive` is a different face on the same axis with the other sign |
| Faces.BitEncoding | src/model/config.ts:13-23 | axis, sign and opposite as arithmetic agree with `& 6`, `& 1` and `^ 1` on the 8-bit ids |
| Faces.SameAxis | src/model/config.ts:13-23 | two faces on one axis are equal or opposite |
| Faces.OppositeInvolution | src/model/config.ts:13-23 | the opposite of the opposite face is the face |
| Config.CellInjective | src/model/config.ts:45-48 | the cell `size²·f + y·size + x` determines f, x and y |
| Config.SolvedData | src/model/config.ts:45-48 | a buffer of 6·size² colours in which face f holds only colour f |
| Config.SolvedDataIsSolved | src/model/config.ts:45-66 | the fresh colouring satisfies `isSolved` |
| Config.CubeConfig.constructor | src/model/config.ts:41-50 | a fresh buffer with contents equal to SolvedData(size) |
| Config.CubeConfig.WithData | src/model/config.ts:41-43 | `new CubeConfig(size, data)` copies the given buffer into a fresh one |
| Config.CubeConfig.Clone | src/model/config.ts:52-54 | a fresh config and fresh buffer with the same size and contents (a deep copy) |
| Config.CubeConfig.IsSolved | src/model/config.ts:56-66 | the early-return nested loop returns true iff every cell of each block equals the block's first cell |
| Rows.MakeInBlock | src/model/row.ts:15-37 | every index `offset + k·step` (k < size) of a made row lies in the face's block |
| Rows.MakeCell | src/model/row.ts:15-37 | the k-th sticker of a made row lies in the block of its face |
| Rows.MakeStep | src/model/row.ts:17-29 | the step of a made row is ±1 or ±size |
| Rows.StepDistinct | src/model/row.ts:17-29 | with such a step the row's size indices are pairwise distinct |
| Rows.Get | src/model/row.ts:39-41 | `get(k)` reads `data[offset + k·step]` |
| Rows.Values | src/model/row.ts:43-49 | the values have length size, and entry k is `get(k)` |
| Rows.GetValues | src/model/row.ts:43-49 | the loop returns Values of the buffer |
| Rows.WriteAt | src/model/row.ts:51-55 | writing puts `values[o + k]` at the row's k-th index and changes no other cell |
| Rows.RoundTrip | src/model/row.ts:43-55 | writing back the row's own values leaves the buffer unchanged, and reading after writing v gives `v[0..size)` |
| Rows.SetValues | src/model/row.ts:51-55 | the new buffer is the old one written through the row from `offset` |
| FaceViews.MakeValid | src/model/face.ts:16-38 | every made view is a valid view: steps {±1, ±size} in some order, starting from the corner they imply |
| FaceViews.ValidViewCells | src/model/face.ts:16-38 | a valid view addresses exactly the face's block, each cell once |
| FaceViews.MakeStandard | src/model/face.ts:40-47 | the standard view reads `face·size² + i + j·size` at (i, j) |
| FaceViews.StandardValid | src/model/face.ts:40-47 | the standard view is valid |
| FaceViews.Get | src/model/face.ts:49-51 | `get(i, j)` reads `data[offset + i·iStep + j·jStep]` |
| FaceViews.Values | src/model/face.ts:53-62 | the values hold the cell (i, j) at position `j·size + i` |
| FaceViews.GetValues | src/model/face.ts:53-62 | the nested loop returns Values of the buffer |
| FaceViews.WriteAt | src/model/face.ts:64-71 | writing puts `values[j·size + i]` at (i, j) and changes nothing outside the face's block |
| FaceViews.ValuesOfWrite | src/model/face.ts:53-71 | reading after writing v gives the first size² entries of v |
| FaceViews.WriteOfValues | src/model/face.ts:53-71 | writing back the view's own values leaves the buffer unchanged |
| FaceViews.SetValues | src/model/face.ts:64-71 | the nested loop leaves the buffer equal to Write of the old buffer |
| FaceViews.TransformIndex | src/model/face.ts:73-88 | the transformed view reads the original at the swapped and flipped coordinates |
| FaceViews.TransformValid | src/model/face.ts:73-88 | a transform of a valid view is valid |
| FaceViews.TransformSameCells | src/model/face.ts:73-88 | a transform addresses the same set of cells, so rotation is a permutation of the block |
| FaceViews.FlipTwice | src/model/face.ts:90-96 | `flipI` twice and `flipJ` twice give back the same view |
| FaceViews.RotateIndex | src/model/face.ts:98-106 | the rotated view reads the original at the quarter-turned coordinates |
| FaceViews.RotateNormalizes | src/model/face.ts:98-106 | rotation depends on the angle modulo 4: `rotate(0)` is the view and `rotate(-1) == rotate(3)` |
| FaceViews.RotateCompose | src/model/face.ts:98-106 | `rotate(a).rotate(b) == rotate(a + b)` |
| FaceViews.RotateQuarters | src/model/face.ts:98-106 | two quarter turns are `rotate(2)`, and four give back the view |
| FaceViews.RotateValid | src/model/face.ts:98-106 | a rotation of a valid view is valid and stays inside the buffer |
| Rings.MakeValid | src/model/ring.ts:19-27 | for a valid frame the ring's 4·size indices are in the buffer, pairwise distinct, and on neither the face nor its opposite |
| Rings.RingInBlocks | src/model/ring.ts:19-27 | row m lies on face jFrom, iFrom^1, jFrom^1, iFrom for m = 0..3 |
| Rings.RingDistinct | src/model/ring.ts:19-27 | the ring's indices are pairwise distinct when iFrom and jFrom lie on different axes |
| Rings.StandardFrameValid | src/model/ring.ts:29-39 | the standard frame of every face is a valid frame |
| Rings.GetRow | src/model/ring.ts:41-49 | `getRow(k)` is row k + 1 for k in 0..3, and fails with "Invalid row index" otherwise |
| Rings.Get | src/model/ring.ts:51-58 | `get(i)` is the i-th ring cell for 0 ≤ i < 4·size, and nothing otherwise |
| Rings.GetByRow | src/model/ring.ts:51-58 | `get(i) == getRow(i div size).get(i mod size)` |
| Rings.Values | src/model/ring.ts:60-69 | 4·size values, block k holding row k's cells |
| Rings.GetValues | src/model/ring.ts:60-69 | the loop returns Values of the buffer |
| Rings.WriteAt | src/model/ring.ts:71-78 | writing puts entry t at the ring's t-th index and changes no other cell |
| Rings.RowsWrite | src/model/ring.ts:71-78 | writing the four rows in turn from offsets 0, size, 2·size and 3·size equals writing the ring |
| Rings.RoundTrip | src/model/ring.ts:60-78 | writing back the ring's values is the identity, and reading after writing v gives `v[0..4·size)` |
| Rings.WriteIdempotent | src/model/ring.ts:71-78 | writing the same values twice equals writing them once |
| Rings.SetValues | src/model/ring.ts:71-78 | the repeated outer loop leaves the buffer equal to Write of the old buffer (for size 0 the buffer is empty and unchanged) |
| Rings.RotateRowAt | src/model/ring.ts:80-91 | row k of `rotate(a)` is `getRow((normalizeInt(a, 4) + k) % 4)` |
| Rings.RotateZero | src/model/ring.ts:80-91 | `rotate(0)` keeps the rows |
| Rings.RotateCompose | src/model/ring.ts:80-91 | `rotate(a).rotate(b)` has the rows of `rotate(a + b)` |
| Rings.RotateIndices | src/model/ring.ts:80-91 | index t of the rotated ring is index `t + normalizeInt(a, 4)·size` (mod 4·size) of the original |
| Rings.RotateValid | src/model/ring.ts:80-91 | a rotation of an in-range ring with distinct indices is again one |
| Actions.RingValid | src/model/action.ts:19 | the standard ring of an in-range layer lies in the buffer and its indices are pairwise distinct |
| Actions.RingOff | src/model/action.ts:19 | no index of the standard ring lies on the turned face or on its opposite face |
| Actions.MovedRing | src/model/action.ts:19-21 | after a move, ring row m holds what row `m − angle` (mod 4) held, cell by cell |
| Actions.MovedFace | src/model/action.ts:23-27 | on layer 0, the face's cell (x, y) receives the cell that the quarter turn by −angle maps it to |
| Actions.MovedOpposite | src/model/action.ts:28-32 | on the last layer, the opposite face turns by +angle |
| Actions.Classify | src/model/action.ts:18-33 | every cell is a ring cell, a cell of the face (layer 0), a cell of the opposite face (last layer), or untouched |
| Actions.ApplyElsewhere | src/model/action.ts:18-33 | a move changes no cell outside its ring and its turned outer faces |
| Actions.StepAt | src/model/action.ts:18-33 | the three snapshot-and-write steps of `act` leave in each cell the colour of its source cell under the move |
| Actions.StepsMove | src/model/action.ts:18-33 | the three steps together equal the permutation Apply |
| Actions.TurnFaceInPlace | src/model/action.ts:24-26 | snapshotting a face and writing it back through the rotated view turns that face |
| Actions.Act | src/model/action.ts:18-33 | `act()` leaves the buffer equal to ApplyAction of the old buffer |
| Actions.ApplyWhole | src/model/action.ts:18-33 | an angle ≡ 0 (mod 4) leaves the buffer unchanged |
| Actions.ApplyCompose | src/model/action.ts:18-33 | turning a layer by a and then by b equals turning it by a + b |
| Actions.FourQuarters | src/model/action.ts:18-33 | four quarter turns of a layer are the identity |
| Actions.MovedInverse | src/model/action.ts:18-37 | the cell maps of angle and −angle are mutually inverse |
| Actions.SourcesBijection | src/model/action.ts:18-33 | the move's source map is a bijection on the buffer |
| Actions.ApplyKeepsColours | src/model/action.ts:18-33 | a move preserves the multiset of colours |
| Actions.InvertUndoes | src/model/action.ts:18-37 | inverting twice gives the action back, and `act` then `invert().act()` (in either order) restores the buffer |
| Actions.SolvedAfterInverse | src/model/action.ts:18-37 | on a fresh cube, a move then its inverse leaves `isSolved()` true |
| Orientations.Default | src/model/orientation.ts:14-19 | the default triple (Right, Top, Front) maps every face to itself |
| Orientations.MapOpposite | src/model/orientation.ts:64-74 | mapping commutes with taking the opposite face: `mapFace(f ^ Positive) == mapFace(f) ^ Positive` |
| Orientations.MapAxes | src/model/orientation.ts:64-74 | for a valid triple, two faces share an axis iff their images do |
| Orientations.MapInjective | src/model/orientation.ts:64-74 | for a valid triple, distinct faces map to distinct faces |
| Orientations.MapOnto | src/model/orientation.ts:64-74 | for a valid triple, every face is the image of some face |
| Orientations.Reorient | src/model/orientation.ts:26-33 | `reorient` shares the config rather than copying it; what it does to the labels is stated by ReorientMap |
| Orientations.ReorientMap | src/model/orientation.ts:26-33 | `o.reorient(r, t, f).mapFace(x) == o.mapFace(d.mapFace(x))` with d the triple (r, t, f) |
| Orientations.ThenValid | src/model/orientation.ts:26-33 | reorienting a valid triple by a valid triple gives a valid triple |
| Orientations.Rotate | src/model/orientation.ts:35-55 | `rotate` shares the config; what it does to the labels is stated by the Rotate* lemmas below |
| Orientations.RotateNormalizes | src/model/orientation.ts:35-37 | rotate depends on the angle only modulo 4 |
| Orientations.RotateZero | src/model/orientation.ts:35-37 | angle 0 returns the orientation itself |
| Orientations.RotateOpposite | src/model/orientation.ts:35-55 | turning about the opposite face by −angle equals turning about the face by angle |
| Orientations.HalfThenQuarter | src/model/orientation.ts:38-53 | the half-turn table, then a quarter turn about the face, equals a quarter turn about its opposite |
| Orientations.RotateTwice | src/model/orientation.ts:38-53 | two quarter turns about a face equal `rotate(face, 2)` |
| Orientations.RotateHalfThenQuarter | src/model/orientation.ts:38-53 | a half turn then a quarter turn equals `rotate(face, 3)` |
| Orientations.RotateFull | src/model/orientation.ts:35-55 | three quarter turns then one more give back the orientation |
| Orientations.QuarterUndo | src/model/orientation.ts:45-53 | a quarter turn about the opposite face, then about the face, gives back the orientation |
| Orientations.RotateCompose | src/model/orientation.ts:35-55 | `rotate(f, a).rotate(f, b) == rotate(f, a + b)` |
| Orientations.RotateUndo | src/model/orientation.ts:35-55 | turning by a and then by −a gives back the orientation |
| Orientations.RotateFixes | src/model/orientation.ts:35-55 | a rotation about a face keeps the label of that face |
| Orientations.InverseBits | src/model/orientation.ts:57-62 | the arithmetic handedness test agrees with the source's bit formula on `& Axis`, `^` and `& Positive` |
| Orientations.DefaultNotInverse | src/model/orientation.ts:57-62 | the default triple is valid and not inverse |
| Orientations.InverseNegateRight | src/model/orientation.ts:57-62 | flipping the sign of the right label flips `isInverse()` |
| Orientations.InverseNegateTop | src/model/orientation.ts:57-62 | flipping the sign of the top label flips `isInverse()` |
| Orientations.InverseNegateFront | src/model/orientation.ts:57-62 | flipping the sign of the front label flips `isInverse()` |
| Orientations.InverseSwapFirst | src/model/orientation.ts:57-62 | swapping right and top flips `isInverse()` |
| Orientations.InverseSwapLast | src/model/orientation.ts:57-62 | swapping top and front flips `isInverse()` |
| Orientations.InverseSwapOuter | src/model/orientation.ts:57-62 | swapping right and front flips `isInverse()` |
| Orientations.QuarterTurnHandedness | src/model/orientation.ts:45-62 | every quarter-turn case keeps the triple valid and keeps `isInverse()` |
| Orientations.HalfTurnHandedness | src/model/orientation.ts:38-62 | every half-turn case keeps the triple valid and keeps `isInverse()` |
| Orientations.RotateHandedness | src/model/orientation.ts:35-62 | `rotate` never changes validity or `isInverse()` |
| Orientations.MirrorHandedness | src/model/orientation.ts:26-62 | `reorient(Front, Top, Right)` keeps validity and flips `isInverse()` |
| Orientations.GetAction | src/model/orientation.ts:129-132 | the action has the shared config, `mapFace(face)`, the offset, and the angle negated exactly when `isInverse()` |
| Orientations.GetActionDefault | src/model/orientation.ts:129-132 | under the default triple, `getAction` is the physical move itself |
| Orientations.GetActionInvert | src/model/orientation.ts:129-132 | inverting a labelled move is the labelled move with the negated angle |
| Orientations.RotateKeepsFaceMoves | src/model/orientation.ts:35-132 | after rotating about a face, the moves of that face are the same physical moves |
| Orientations.GetStandardFaceValid | src/model/orientation.ts:95-105 | each standard face view under a valid orientation is a valid view of the mapped face |
| Orientations.DefaultStandardFace | src/model/orientation.ts:95-105 | under the default triple, every standard face view starts at the block's last row, steps +1 along i and −size along j |
| Orientations.GetStandardRingValid | src/model/orientation.ts:117-127 | each standard ring is in range, has distinct indices, and avoids the mapped face and its opposite |
| Orientations.GetStandardRingDefault | src/model/orientation.ts:117-127 | under the default triple, `getStandardRing` is the ring's `makeStandard` |
| Orientations.Clone | src/model/orientation.ts:21-24 | a fresh config with the same size and contents, and the same right, top and front |
| Handedness.HandedFrom | src/model/orientation.ts:57-62 | for each of the 48 valid triples, the determinant is ±1 and `isInverse()` holds iff it is −1 |
| Handedness.InverseIsLeftHanded | src/model/orientation.ts:57-62 | `isInverse()` is true exactly for left-handed (determinant −1) triples |
| Handedness.RotateKeepsDet | src/model/orientation.ts:35-62 | rotations keep the determinant |
| Handedness.MirrorNegatesDet | src/model/orientation.ts:26-62 | the mirrored relabelling negates the determinant |
| Sequences.Letter | src/solver/sequence.ts:39-46 | each face has a letter that the scanner reads back as that face |
| Sequences.LetterUnique | src/solver/sequence.ts:39-46 | a letter is read as a face only if it is that face's letter |
| Sequences.MatchAt | src/solver/sequence.ts:37 | every step of the scanner consumes at least one character |
| Sequences.ScanAt | src/solver/sequence.ts:37-57 | scanning from i is the match at i followed by scanning after it |
| Sequences.Parse | src/solver/sequence.ts:34-58 | the constructor's loop collects exactly the moves of Scan(spec) |
| Sequences.ScanLetter | src/solver/sequence.ts:38-51 | a bare letter is a move by angle 1 on layers 0..0 |
| Sequences.AngleRead | src/solver/sequence.ts:47-51 | the modifier written for any angle (none for 1, `2`, `'` for −1, `(n)` or `(-n)` otherwise) reads back as that angle and consumes exactly its own characters |
| Sequences.ShortAngleRead | src/solver/sequence.ts:47-49 | none, `2` and `'` read as angles 1, 2 and −1 |
| Sequences.NumberRead | src/solver/sequence.ts:50-54 | the decimal digits of n, not followed by a digit, read as n |
| Sequences.ParenthesisedRead | src/solver/sequence.ts:50 | `(n)` and `(-n)` read as n and −n |
| Sequences.LayerRead | src/solver/sequence.ts:52-55 | `+k` reads as layers k..k, and `+k:m` as k..m |
| Sequences.OneLayerRead | src/solver/sequence.ts:52-55 | `+k` reads as layers k..k |
| Sequences.TwoLayerRead | src/solver/sequence.ts:52-55 | `+k:m` with k ≠ m reads as layers k..m |
| Sequences.MoveRead | src/solver/sequence.ts:37-56 | a written move followed by the start of another reads as that move |
| Sequences.ScanFormat | src/solver/sequence.ts:30-58 | parsing the notation written for any list of moves gives the list back, in order |
| Sequences.ScanSkips | src/solver/sequence.ts:30-37 | characters outside the grammar are skipped silently |
| Sequences.GetLength | src/solver/sequence.ts:60-66 | the loop returns Σ \|angle\|·(end − start + 1) over the moves |
| Sequences.TotalLengthAppend | src/solver/sequence.ts:60-66 | the length of two lists of moves is the sum of their lengths |
| Sequences.MoveActionsLayers | src/solver/sequence.ts:20-24 | a move yields one action per layer from start to end, in ascending order (none when end < start), each on the shared config and the mapped face, with the move's angle magnitude |
| Sequences.MoveLengthCounts | src/solver/sequence.ts:16-24 | a move's length is the number of quarter turns its actions make |
| Sequences.LengthIsQuarterTurns | src/solver/sequence.ts:16-72 | `getLength()` counts the quarter turns of all the actions `getActions` yields |
| Sequences.SequenceActionsAppend | src/solver/sequence.ts:68-72 | the actions of two lists of moves are concatenated in order |
| Sequences.ActionsOnCopy | src/solver/sequence.ts:68-72 | on a clone the same actions are yielded, differing only in the config they act on |
| Sequences.ActionsWithin | src/solver/sequence.ts:20-24 | when every end layer is below n, every action's layer is in [0, n) |
| Sequences.ReversedRange | src/solver/sequence.ts:16-24 | `R+3:1` yields no action, yet its length is −1 |
| Best.Best.constructor | src/util/best.ts:9-11 | the threshold is the given vector, or [Infinity] when none is given; no value yet |
| Best.Best.Consider | src/util/best.ts:13-22 | the candidate replaces value and weight iff its vector beats the stored one |
| Best.Best.GetWeight | src/util/best.ts:24-26 | `getWeight(i)` is component i of the stored weight, if there is one |
| Best.BeatsAt | src/util/best.ts:13-22 | a vector equal up to i that is smaller at i, or ends at i, beats the stored one |
| Best.LosesAt | src/util/best.ts:18-20 | a vector that is larger at the first differing component does not beat |
| Best.AgreeingLoses | src/util/best.ts:13-22 | a vector that agrees on the whole stored length does not beat, so the first candidate wins ties |
| Best.BeatsIrreflexive | src/util/best.ts:13-22 | no vector beats itself |
| Best.BeatsInfinity | src/util/best.ts:9-11 | every finite vector beats [Infinity] |
| Best.PrefixBeats | src/util/best.ts:15-17 | a shorter vector that is a prefix of the stored one beats it |
| Best.BeatsAsymmetric | src/util/best.ts:13-22 | if w beats c then c does not beat w |
| Stages.BestOption.constructor | src/solver/stage.ts:28 | no option yet, with the given threshold weight |
| Stages.BestOption.Consider | src/solver/stage.ts:30-35 | only a strictly smaller weight replaces the option and weight |
| Stages.ChooseOption | src/solver/stage.ts:54-61 | the nested loop (actions outer, models inner) computes Choose |
| Stages.ConsiderAllFirstMinimum | src/solver/stage.ts:54-63 | the choice is none iff no candidate weighs below the base weight; otherwise it is the first candidate of minimum weight |
| Stages.ChooseLowers | src/solver/stage.ts:54-63 | a chosen candidate weighs strictly less than the base weight |
| Stages.RunStage | src/solver/stage.ts:45-74 | the loop emits the actions of Run and ends with Run's error; when it throws nothing it stops at a model weighing ≤ 0 or one no candidate improves on |
| Stages.EmptyTransform | src/solver/stage.ts:46-48 | nothing is emitted if `transform(baseCube)` is empty |
| Stages.AlreadyDone | src/solver/stage.ts:50-53 | nothing is emitted if the first weight is ≤ 0 |
| Stages.RoundsEnd | src/solver/stage.ts:53-72 | rounds only append actions, the only error is "Internal Error: Incorrect weight", and rounds that end without error stop where the weight is ≤ 0 or no candidate lowers it, that weight being the final model's own |
| Stages.RunStops | src/solver/stage.ts:45-74 | a run that throws nothing ends at a model whose weight is ≤ 0 or which no candidate improves on |
| Stages.RunBounded | src/solver/stage.ts:53-72 | the number of rounds is at most the initial weight |
| Stages.RoundsBounded | src/solver/stage.ts:53-72 | from any round, at most as many further rounds run as the current positive weight |
| Snapshots.PerformOne | src/model/action.ts:18-33 | one action on a snapshot performs the steps of `act`, and an action outside the cube leaves it unchanged |
| Snapshots.PerformAppend | src/solver/stage.ts:67 | applying two lists of yielded actions in turn is applying their concatenation |
| Processes.SubstituteNumber | src/solver/bottomedge.ts:19-26 | a numeric argument replaces the first key by `!`, none, `+` or `-` according to its value mod 4 |
| Processes.SubstituteText | src/solver/bottomedge.ts:27-28 | a non-empty text argument replaces the first key verbatim |
| Processes.SubstituteMissing | src/solver/bottomedge.ts:29-31 | a missing argument fails with "Expected process parameter 'k'" |
| Processes.SubstituteEmpty | src/solver/bottomedge.ts:27-31 | an empty text argument fails like a missing one |
| Processes.SubstituteFirst | src/solver/bottomedge.ts:16-32 | the substitution step returns Substitute (only the first `$k` is replaced) |
| Processes.FindKey | src/solver/bottomedge.ts:16 | the first position of `$` followed by a digit at or after `from`, or none |
| Processes.BareMove | src/solver/bottomedge.ts:35-51 | an unprefixed letter is a move by angle 1 |
| Processes.PrefixedMove | src/solver/bottomedge.ts:37-41 | prefix `-` gives angle −1, and `+` gives angle 2 |
| Processes.OffsetRead | src/solver/bottomedge.ts:51 | digits n after the letter give offset n − 1, and the default is 0 |
| Processes.TokenRead | src/solver/bottomedge.ts:33-51 | the written form of any move or stop, not followed by a digit, is read back as that token and consumes exactly its own characters |
| Processes.MarkTurns | src/solver/bottomedge.ts:19-41 | a numeric parameter turns the following move by its value mod 4, and a multiple of 4 makes it a stop |
| Processes.StopEnds | src/solver/bottomedge.ts:38 | `!` ends the process: no move after it is yielded |
| Processes.ProcessTextRead | src/solver/bottomedge.ts:33-53 | writing a list of moves in the process notation and scanning it gives the list back |
| Processes.EmitMoves | src/solver/bottomedge.ts:33-53 | the scanning loop yields `getAction(face, offset, angle)` for each move before the first stop |
| Processes.RunProcess | src/solver/bottomedge.ts:15-54 | `runProcess` yields the actions of the substituted process, or fails with the substitution's error |
| EdgeProcesses.ProcessWritten | src/solver/bottomedge.ts:77-127 | each action's process text is the notation of its list of moves |
| EdgeProcesses.ThirdUndoesFirst | src/solver/bottomedge.ts:77-127 | Action3's moves undo Action1's, up to swapping two commuting moves (B and F) |
| EdgeProcesses.FirstUndone | src/solver/bottomedge.ts:77-127 | Action1 and Action3 have the same number of moves, and every move of Action1 is undone by the mirrored position of Action3 once B and F are swapped |
| BottomEdge.WeighModel | src/solver/bottomedge.ts:146-164 | the counting loop returns Weigh |
| BottomEdge.WeighRange | src/solver/bottomedge.ts:146-164 | the weight is in {0, 1, 2, 3}, and 0 iff all four edges are correct |
| BottomEdge.CorrectSides | src/solver/bottomedge.ts:146-164 | all correct means every edge's side sticker matches its side colour |
| BottomEdge.CountsAddUp | src/solver/bottomedge.ts:147-159 | each edge falls in exactly one of the four counts |
| BottomEdge.AlterModel | src/solver/bottomedge.ts:63-124 | the three alterations keep the cube, the colours and `edges[3]` |
| BottomEdge.FirstThirdInverse | src/solver/bottomedge.ts:63-124 | Action3's and Action1's alterations are mutual inverses |
| BottomEdge.SecondCycles | src/solver/bottomedge.ts:88-99 | Action2's alteration applied three times is the identity |
| BottomEdge.AlterCubeMoves | src/solver/bottomedge.ts:76-128 | `alterCube` yields the actions of the action's process, which never fails |
| BottomEdge.WrittenProcessActions | src/solver/bottomedge.ts:15-54 | running any process written in the notation, whatever the arguments, yields the actions of its moves and never fails |
| BottomEdge.Transform | src/solver/bottomedge.ts:166-181 | 8 models, the first the model itself, each with the same buffer |
| BottomEdge.TurnModel | src/solver/bottomedge.ts:172-174 | a quarter-turned model rotates edges and colours 0..3 and keeps colour 4 |
| BottomEdge.MirrorModel | src/solver/bottomedge.ts:176-177 | the mirrored model reverses edges and colours 0..3 and keeps colour 4 |
| BottomEdge.TurnKeepsWeight | src/solver/bottomedge.ts:172-174 | turning the model by 0..3 quarter turns keeps its weight |
| BottomEdge.MirrorKeepsWeight | src/solver/bottomedge.ts:176-180 | mirroring the model keeps its weight |
| BottomEdge.TransformKeepsWeight | src/solver/bottomedge.ts:166-181 | all 8 models weigh the same as the original |
| BottomEdge.MakeModel | src/solver/bottomedge.ts:187-209 | the model keeps the cube, and its colour 4 is the bottom centre |
| BottomEdge.ModelSides | src/solver/bottomedge.ts:196-205 | edge i's side sticker and colour i are read from the same row of rings 0 and 1 |
| BottomEdge.SolvedWeighsNothing | src/solver/bottomedge.ts:146-209 | a solved cube of size ≥ 2 weighs 0 |
| BottomEdge.EdgeStageRounds | src/solver/bottomedge.ts:186-219 | the bottom-edge stage runs at most 3 rounds |
| BottomEdge.SolvedEdgeStage | src/solver/bottomedge.ts:186-219 | on a solved cube the stage yields nothing |
| Solve3.TallyRange | src/solver/solve3.ts:59-71 | one rotation's tally lies in [4 − k, 4 + k], and is 4 − k iff all k edges match |
| Solve3.LeastTallyIsLeast | src/solver/solve3.ts:59-72 | `best` is the minimum over the rotations, and attained by one |
| Solve3.LeastOverTurns | src/solver/solve3.ts:59-72 | the nested loop returns that minimum |
| Solve3.TopEdgeScoreRange | src/solver/solve3.ts:50-74 | the TopEdge score lies in [0, 8], and is 0 iff some rotation matches every top edge |
| Solve3.CornerWeightRange | src/solver/solve3.ts:76-97 | cornerWeight lies in [0, 17] |
| Solve3.CornerLoop | src/solver/solve3.ts:87-94 | the corner loop returns 8 plus the sum of ±2 terms |
| Solve3.SideWeightRange | src/solver/solve3.ts:99-113 | sideWeight lies in [0, 8], and is 0 for size ≤ 2 |
| Solve3.SideLoop | src/solver/solve3.ts:102-112 | the side loop returns 4 plus the sum of ±1 terms |
| Solve3.PositionLoop | src/solver/solve3.ts:118-144 | BottomCornerPosition contributes 0 iff some rotation of the expected colours matches all four bottom corners, and otherwise 1 |
| Solve3.CountUnder | src/solver/solve3.ts:147-150 | the loop counts the bottom corners showing the bottom colour |
| Solve3.TwistWeight | src/solver/solve3.ts:146-160 | the rotation weight lies in [0, 5] |
| Solve3.CountEdges | src/solver/solve3.ts:162-178 | the loop counts the correct and the wrong-and-flipped bottom edges |
| Solve3.EdgeScore | src/solver/solve3.ts:180-186 | the bottom-edge weight lies in [0, 3], and is 0 iff more than 2 edges are correct |
| Solve3.WeighScores | src/solver/solve3.ts:24-190 | the whole `weigh` returns the weight of the six scores in their fixed order |
| Solve3.WeighCube | src/solver/solve3.ts:24-190 | `weigh(cube)` returns Weigh of the snapshot |
| Solve3.BandsOf | src/solver/solve3.ts:10-189 | the weight is 0 or k·0x10000 + r with 1 ≤ r < 0x10000, where k names the first unsatisfied sub-stage |
| Solve3.InBand | src/solver/solve3.ts:193 | for 0 ≤ r < 0x10000, `(k·0x10000 + r) % 0x10000` is r, so the band of k·0x10000 + r is k·0x10000 |
| Solve3.WeighBands | src/solver/solve3.ts:10-189 | the same for the weight of a cube: its band identifies the first pending sub-stage |
| Solve3.SmallCubeBands | src/solver/solve3.ts:51-163 | for size ≤ 2, TopEdge, SideEdge and BottomEdge are never the pending band |
| Solve3.SolvedColour | src/solver/solve3.ts:34-48 | on a solved cube each reference colour is the colour of the mapped face |
| Solve3.SolvedWeighsNothing | src/solver/solve3.ts:24-189 | a solved cube, seen through any orientation, weighs 0 |
| Solve3.UniformWeighsNothing | src/solver/solve3.ts:24-189 | when every face shows its reference colour, and for size > 2 each middle-ring row has one colour, all six scores are 0, so the weight is 0 |
| Solve3.WeighRelabel | src/solver/solve3.ts:24-189 | the weight depends only on the labels and the stickers, not on which config object holds them |
| Solve3.SequenceTexts | src/solver/solve3.ts:192-261 | the band `weight − weight % 0x10000` selects 16, 14, 4, 2, 4 or 3 sequences, and no band selects none |
| Solve3.SequencesWhilePending | src/solver/solve3.ts:192-261 | a cube has sequences to try exactly while its weight is not 0 |
| CubeStages.NewAction | src/solver/cubestage.ts:10-13 | `Action.length` is its sequence's `getLength()` |
| CubeStages.ActionLength | src/solver/cubestage.ts:11 | that length is the number of quarter turns the action makes |
| CubeStages.NewModel | src/solver/cubestage.ts:29-34 | the model's weight is the given weight, or `weigh(cube)` when none is given |
| CubeStages.WeighAction | src/solver/cubestage.ts:36-42 | returns the weight of the cube after all the sequence's actions, and the model's own config is left untouched |
| CubeStages.PlayAll | src/solver/cubestage.ts:38-40 | acting the actions one by one on the clone performs them in order |
| CubeStages.CopyWeighs | src/solver/cubestage.ts:36-42 | playing the moves on a clone weighs the same as playing them on the original |
| CubeStages.Realign | src/solver/cubestage.ts:61-68 | 6 orientations, the unchanged cube first, all on the same config |
| CubeStages.RealignTop | src/solver/cubestage.ts:61-68 | the k-th realigned orientation has as Top the old orientation's image of the k-th face of the realign table |
| CubeStages.RealignEachTopOnce | src/solver/cubestage.ts:61-68 | each physical face becomes Top exactly once |
| CubeStages.Transform | src/solver/cubestage.ts:70-80 | 8 orientations, the cube first |
| CubeStages.TransformAt | src/solver/cubestage.ts:70-80 | each keeps the config and Top; the first four keep `isInverse()`, and the mirrored four flip it |
| CubeStages.TopTurnsKeep | src/solver/cubestage.ts:71-74 | each of the four turns about Top keeps the config, the validity, Top and `isInverse()` |
| CubeStages.GetActions | src/solver/cubestage.ts:86-90 | one action per sequence of the model's band, in order, each with its parsed moves and length |
| CubeStages.ParseAll | src/solver/cubestage.ts:86-90 | one action per text, in order, each with the moves Scan reads from it and their length |
| CubeStages.ActionsWhilePending | src/solver/cubestage.ts:86-90 | a model has actions exactly while its weight is not 0 |
| Solve.Start | src/solver/solve.ts:11 | the caller's own config under (Right, Top, Front): every face maps to itself and the frame is not inverse |
| Solve.FreshCubeWeighsNothing | src/solver/solve.ts:10-14 | a freshly made cube weighs 0 as the solver sees it |
| LegacyConfig.Ring | src/cube/config.ts:27-73 | 4·dim indices for axes 0, 1 and 2, and "Invalid axis" otherwise |
| LegacyConfig.GetRing | src/cube/config.ts:27-73 | the loop returns Ring(slice) |
| LegacyConfig.RingSlot | src/cube/config.ts:66-72 | entry `f·dim + i` is `offset[f] + i·step[f]` |
| LegacyConfig.RingInjective | src/cube/config.ts:27-62 | for a layer of the cube, the ring's indices are distinct |
| LegacyConfig.RingDistinct | src/cube/config.ts:27-62 | two positions of a layer's ring holding the same index are the same position |
| LegacyConfig.RingInRange | src/cube/config.ts:27-62 | for a layer of the cube, every index is in the buffer |
| LegacyConfig.RingOffAxis | src/cube/config.ts:27-62 | no ring index lies on the two faces of the slice's axis |
| LegacyConfig.RingFaces | src/cube/config.ts:27-62 | the four blocks of the ring lie on the four distinct faces off the axis |
| LegacyConfig.RingOnAxis | src/cube/config.ts:27-148 | every ring cell lies on layer `index` of the axis, as `indexOnAxis` measures it |
| LegacyConfig.IndexOnAxisCell | src/cube/config.ts:137-148 | on a face off the axis, `indexOnAxis` is the cell's x or y coordinate as the source's axis cases choose |
| LegacyConfig.IndexOnAxis | src/cube/config.ts:137-148 | for a non-negative cell index the layer lies in [0, dim) |
| LegacyConfig.EndsOnAxis | src/cube/config.ts:140-141 | the two faces of the axis lie on layers 0 and dim − 1 |
| LegacyConfig.FreshFaces | src/cube/config.ts:81-89 | a fresh config fills face i with colour i |
| LegacyConfig.CubeConfig.constructor | src/cube/config.ts:81-89 | a fresh buffer equal to Fresh(dim) |
| LegacyConfig.AdjustWhole | src/cube/config.ts:100-102 | an angle ≡ 0 (mod 4) leaves the data unchanged |
| LegacyConfig.AdjustFails | src/cube/config.ts:99-106 | adjust fails, with "Invalid axis", iff the angle is not ≡ 0 and the axis is not 0, 1 or 2 |
| LegacyConfig.AdjustedMove | src/cube/config.ts:99-120 | a real turn shifts the ring by (4 − angle)·dim and turns the ends by the corrected angle |
| LegacyConfig.RingTurnColours | src/cube/config.ts:106-110 | the ring's colours are cyclically shifted |
| LegacyConfig.ShiftedTwice | src/cube/config.ts:106-110 | shifting by s1 and then s2 with s1 + s2 = length is the identity |
| LegacyConfig.AdjustTouches | src/cube/config.ts:105-119 | adjust changes only ring cells, plus face 2·axis on layer 0 and face 2·axis + 1 on layer dim − 1 |
| LegacyConfig.AdjustUndo | src/cube/config.ts:99-135 | `adjust(s, a)` then `adjust(s, −a)` restores the data |
| LegacyConfig.FaceTurnAt | src/cube/config.ts:122-135 | the turned face holds at (x, y) the old colour at the quarter-turned position |
| LegacyConfig.FaceFinished | src/cube/config.ts:122-135 | once the write loop has covered every row, the data equals the face turned by the angle |
| LegacyConfig.CubeConfig.Adjust | src/cube/config.ts:99-120 | the data becomes Adjusted(old data), or stays unchanged with the "Invalid axis" failure |
| LegacyConfig.CubeConfig.RotateRing | src/cube/config.ts:106-110 | the ring loop scatters the shifted snapshot of the ring's colours |
| LegacyConfig.CubeConfig.TurnEnds | src/cube/config.ts:113-119 | the two end-face calls turn exactly the slice's end faces |
| LegacyConfig.CubeConfig.AdjustFace | src/cube/config.ts:122-135 | the snapshot-then-write loop turns the face by angle ∈ {1, 2, 3} quarter turns |
| LegacyActions.Invert | src/cube/action.ts:14-16 | `invert` keeps the slice and negates the angle |
| LegacyActions.InvertTwice | src/cube/action.ts:14-16 | `invert().invert()` is the original action |
| LegacyActions.InvertApplicable | src/cube/action.ts:14-16 | an action throws iff its inverse does |
| LegacyActions.ApplicableSucceeds | src/cube/config.ts:63-64 | `adjust` succeeds exactly for applicable actions: an angle ≡ 0 (mod 4), or an axis 0, 1 or 2 |
| LegacyActions.UndoOnce | src/cube/action.ts:14-16 | an applicable action succeeds, and adjusting by its inverse angle afterwards restores the data |
| LegacyActions.InvertUndoes | src/cube/action.ts:14-16 | `adjust(slice, a)` then `adjust(slice, invert().angle)` restores the data, and so does the reverse order |
| LegacyCube.Cube.constructor | src/cube/cube.ts:44-46 | a solved cube with empty stacks and no actor |
| LegacyCube.Initial | src/cube/cube.ts:44-46 | the fresh state (solved colours, empty stacks, no actor) satisfies the cube invariant: every stacked move fits and did not throw |
| LegacyCube.AdjustStep | src/cube/cube.ts:177-182 | `adjust` keeps the cube invariant when the move fits the cube |
| LegacyCube.UndoStep | src/cube/cube.ts:203-212 | `undo` keeps the cube invariant |
| LegacyCube.RedoStep | src/cube/cube.ts:214-222 | `redo` keeps the cube invariant |
| LegacyCube.NextStep | src/cube/cube.ts:189-197 | pulling the next move from the actor keeps the cube invariant |
| LegacyCube.SetActorStep | src/cube/cube.ts:184-187 | setting the actor to moves that fit the cube keeps the cube invariant |
| LegacyCube.Cube.Adjust | src/cube/cube.ts:177-182 | the cube's state becomes AdjustStep: the move is applied, pushed on the undo stack, and the redo stack is emptied |
| LegacyCube.AdjustClearsRedo | src/cube/cube.ts:177-182 | after an adjust that does not throw, the redo stack is empty, the undo stack has the move on top, and the data is moved |
| LegacyCube.AdjustThrows | src/cube/cube.ts:177-182 | an adjust that throws changes nothing |
| LegacyCube.Cube.Undo | src/cube/cube.ts:203-212 | the state becomes UndoStep: actor cleared, last move popped, re-applied negated, and pushed on the redo stack |
| LegacyCube.Cube.Redo | src/cube/cube.ts:214-222 | the state becomes RedoStep: actor cleared, redo stack popped, re-applied, and pushed on the undo stack |
| LegacyCube.UndoNothing | src/cube/cube.ts:203-212 | undo with an empty stack leaves the data and the redo stack unchanged |
| LegacyCube.UndoAfterAdjust | src/cube/cube.ts:177-212 | adjust then undo restores the data and the undo stack, clears the actor, and leaves the move alone on the redo stack |
| LegacyCube.RedoAfterUndo | src/cube/cube.ts:203-222 | undo then redo restores the data and both stacks; only the actor is cleared |
| LegacyCube.UndoAfterRedo | src/cube/cube.ts:203-222 | redo then undo restores the data and both stacks; only the actor is cleared |
| LegacyCube.Cube.CanUndoNow | src/cube/cube.ts:199-201 | `canUndo()` is true iff the undo stack holds more than one action |
| LegacyCube.CanUndoLeavesOne | src/cube/cube.ts:199-212 | when `canUndo()`, an undo leaves at least one action stacked |
| LegacyCube.Cube.NextMove | src/cube/cube.ts:189-197 | the state becomes NextStep: nothing without an actor, the actor cleared when exhausted, and otherwise one pulled move adjusted; it fails exactly when the pulled move is not applicable (a partial turn about an invalid axis) |
| LegacyCube.PullOne | src/cube/cube.ts:189-197 | a pull applies the actor's first move and keeps the rest |
| LegacyCube.ActorDrains | src/cube/cube.ts:184-197 | \|moves\| + 1 pulls apply every move of the actor in order, stack them, and clear the actor |
| LegacyCube.Cube.SetActor | src/cube/cube.ts:184-187 | the state becomes SetActorStep: the actor is set and the first move pulled at once, or cleared; it fails exactly when that first move is not applicable (a partial turn about an invalid axis) |

## Left out

- Actions.Act: requires the layer offset to lie in [0, size). `act()` makes no such check, and for layers outside the cube its row arithmetic reaches into other faces' blocks, so it is then not a permutation. The solver's own layers (`+1`, and the `getStandardRing(Bottom, 0/1)` reads) are always in range.
- Snapshots.PerformOne: an action whose layer lies outside the cube leaves the snapshot unchanged, where the source would write through out-of-face indices.
- CubeStages.WeighAction: requires every sequence move's end layer to be below the cube's size, for the same reason as `Actions.Act`. Every sequence of the solve3 tables uses layer 0.
- LegacyConfig.CubeConfig.Adjust: requires the slice to be a layer of this cube (`dim` equal, `0 ≤ index < dim`). The source accepts any index and then writes through indices outside the ring's faces.
- LegacyCube.Cube.Adjust, LegacyCube.Cube.SetActor: require the moves to be layers of the cube, as above. A move with an invalid axis is modelled: it throws and changes nothing.
- LegacyCube.Cube.Undo: the branch where re-applying the popped move throws cannot happen under the invariant, since only moves that did not throw are stacked.
- Rings.SetValues: for a cube of size 0 the buffer is empty, and the ensures states only that it is unchanged.
- Generator laziness. `runStage`, `getActions`, `runProcess`, `realign`, `transform` and `solveCube` are modelled as functions returning whole sequences. That nothing is computed before the first pull is not modelled.
- Who applies yielded moves. `runStage` relies on its consumer acting each yielded action before it re-weighs. In the model the stage's `perform` field does that (`Snapshots.Perform`).
- The `solveCube` stream itself. `cubestage.ts` is written against a different `Stage` API than `stage.ts`: it has `getActions(model)`, a two-argument `makeModel`, and no `getCube`/`transform` on `CubeModel`. So `CubeStage(Solve3Model).runStage(cube)` cannot be composed as written. Its pieces (`Action`, `CubeModel`, `weighAction`, `realign`, `transform`, `getActions`) are modelled on their own, and `runStage` is instantiated with the bottom-edge stage, which does match.
- `ModelAction.weight`: each bottom-edge action is built with weight 1, but `runStage` never reads it, so it is not modelled.
- `realign` is never called by `runStage`. Also, the choice among candidates uses the predicted weight alone, with the first candidate winning ties. There is no tie-break on sequence length, so none is modelled.
- Views are values (`offset` and steps) with the buffer passed to their methods, not objects holding a `config` reference. `getValues` returns a sequence rather than a fresh `Int8Array`.
- Best.Best.GetWeight: the default argument of `getWeight(i = 0)` is not modelled; the index is always passed.
- The move classes of `src/model/action.ts` and `src/cube/cube.ts` are modelled once each: `Actions.CubeAction` and `LegacyActions.CubeAction`. `cube.ts` declares a copy of the latter.
- `CubeConfig.adjust` is split into `RotateRing` and `TurnEnds` in the model, and `FaceViews.SetValues` into a column helper (`SetColumn`). Each is proved against the same spec functions as the whole.
- `Int8` overflow: colours are 0..5, so no store wraps.
- Rendering and animation: WebGL (`src/gl`), floating-point geometry (`src/math`), `src/page`, `src/application`, `Cube.render*`, `rotate`, `getFaces`, and the animation fields set by `animate`.
- `src/application/shuffle.ts` and `shuffle` in `src/index.ts` (random moves), `src/application/settings.ts` (local storage), and `src/util/hook.ts`, `event.ts` and `throttle.ts` (callbacks and timers).
- The regular-expression engine: both notations are modelled as explicit character scanners with the same grammar.
- Sequences.NumberRead, Sequences.ScanFormat, Processes.OffsetRead, Processes.TokenRead, Processes.ProcessTextRead: numbers in both notations are exact integers (`Sequences.Number`, `Processes.LayerOffset`). The source converts digit strings with unary `+` to IEEE doubles (src/solver/sequence.ts:50-54, src/solver/bottomedge.ts:51), which round above 2^53: `R(9007199254740993)` turns by 9007199254740992, a whole turn, in the source, but a quarter turn in the model. So these round trips hold in the source only up to 2^53. Every number in the solver's sequence tables and processes is a single digit.
- Processes.RunProcess: a numeric process argument is an `int` (`Processes.Num`), so a non-integer, NaN or infinite argument and the "Internal error" it throws (src/solver/bottomedge.ts:24) are not modelled. The bottom-edge actions pass no arguments.
