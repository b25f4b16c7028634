// The legacy cube's undo/redo stack machine (src/cube/cube.ts:177-222): each move made is
// applied to the colour buffer and remembered, so that it can be undone and redone; an actor
// feeds a stream of moves one at a time.

module LegacyCube {
  import opened Numbers
  import opened Wrappers
  import opened LegacyConfig
  import opened LegacyActions

  /** The parts of a `Cube` that its moves change: the colours, both stacks and the actor's
      remaining moves (`None` when there is no actor). */
  datatype CubeState = CubeState(
    data: seq<int>,
    undoList: seq<CubeAction>,
    redoList: seq<CubeAction>,
    actor: Option<seq<CubeAction>>)

  /** Every move in `actions` turns a slice of a cube of side `n`. */
  predicate Fitting(n: nat, actions: seq<CubeAction>)
  {
    forall i :: 0 <= i < |actions| ==> Fits(n, actions[i].slice)
  }

  /** Every move in `actions` turns a slice of a cube of side `n` without throwing. */
  predicate Stackable(n: nat, actions: seq<CubeAction>)
  {
    forall i :: 0 <= i < |actions| ==> Fits(n, actions[i].slice) && Applicable(actions[i])
  }

  /** The state of a cube of side `n`: every stacked move fits and was made without throwing,
      and the actor's moves fit. */
  predicate Good(n: nat, st: CubeState)
  {
    && |st.data| == 6 * n * n
    && Stackable(n, st.undoList) && Stackable(n, st.redoList)
    && (st.actor.Some? ==> Fitting(n, st.actor.value))
  }

  /** `config.adjust(slice, angle)` as a total map: a move that throws, or whose slice does not
      fit the colours, leaves the colours alone. */
  function Apply(d: seq<int>, a: CubeAction): (e: seq<int>)
    ensures |e| == |d|
  {
    if Fits(a.slice.dim, a.slice) && |d| == 6 * a.slice.dim * a.slice.dim then
      match Adjusted(d, a.slice, a.angle)
      case Success(e) => e
      case Failure(_) => d
    else d
  }

  /** A new cube: solved colours, no moves stacked, no actor. */
  function Initial(n: nat): (st: CubeState)
    ensures Good(n, st)
  {
    CubeState(Fresh(n), [], [], None)
  }

  /** `adjust(action)`: applies the move, pushes it on the undo stack and empties the redo
      stack; a move that throws changes nothing. */
  function AdjustStep(n: nat, st: CubeState, a: CubeAction): (r: CubeState)
    ensures Good(n, st) && Fits(n, a.slice) ==> Good(n, r)
  {
    if Applicable(a) then st.(data := Apply(st.data, a), undoList := st.undoList + [a], redoList := [])
    else st
  }

  /** `undo()`: drops the actor, pops the last move and turns it back, then pushes it on the
      redo stack. */
  function UndoStep(n: nat, st: CubeState): (r: CubeState)
    requires Good(n, st)
    ensures Good(n, r)
  {
    var s := st.(actor := None);
    if |st.undoList| == 0 then s
    else
      var a := st.undoList[|st.undoList| - 1];
      var rest := st.undoList[..|st.undoList| - 1];
      assert Fits(n, a.slice);
      match Adjusted(st.data, a.slice, Invert(a).angle)
      case Success(e) => s.(data := e, undoList := rest, redoList := st.redoList + [a])
      case Failure(_) => s.(undoList := rest)
  }

  /** `redo()`: drops the actor, pops the last undone move and makes it again, then pushes it on
      the undo stack. */
  function RedoStep(n: nat, st: CubeState): (r: CubeState)
    requires Good(n, st)
    ensures Good(n, r)
  {
    var s := st.(actor := None);
    if |st.redoList| == 0 then s
    else
      var a := st.redoList[|st.redoList| - 1];
      var rest := st.redoList[..|st.redoList| - 1];
      assert Fits(n, a.slice);
      match Adjusted(st.data, a.slice, a.angle)
      case Success(e) => s.(data := e, redoList := rest, undoList := st.undoList + [a])
      case Failure(_) => s.(redoList := rest)
  }

  /** `nextMove()`: takes the actor's next move and adjusts by it, or drops an exhausted actor. */
  function NextStep(n: nat, st: CubeState): (r: CubeState)
    ensures Good(n, st) ==> Good(n, r)
  {
    match st.actor
    case None => st
    case Some(moves) =>
      if |moves| == 0 then st.(actor := None)
      else AdjustStep(n, st.(actor := Some(moves[1..])), moves[0])
  }

  /** `setActor(actor)`: installs the actor and makes its first move, or drops the actor. */
  function SetActorStep(n: nat, st: CubeState, actor: Option<seq<CubeAction>>): (r: CubeState)
    requires Good(n, st) && (actor.Some? ==> Fitting(n, actor.value))
    ensures Good(n, r)
  {
    match actor
    case None => st.(actor := None)
    case Some(_) => NextStep(n, st.(actor := actor))
  }

  /** `canUndo()`: more than one move is stacked. */
  predicate CanUndo(st: CubeState)
  {
    |st.undoList| > 1
  }

  // What the stacks promise.

  /** Undoing right after a move restores the colours and the undo stack, and leaves the move
      ready to redo. */
  lemma UndoAfterAdjust(n: nat, st: CubeState, a: CubeAction)
    requires Good(n, st) && Fits(n, a.slice) && Applicable(a)
    ensures UndoStep(n, AdjustStep(n, st, a)) == st.(actor := None, redoList := [a])
  {
    InvertUndoes(st.data, a);
    var st1 := AdjustStep(n, st, a);
    assert st1.undoList[..|st1.undoList| - 1] == st.undoList;
  }

  /** Redoing right after an undo puts everything back but the actor. */
  lemma RedoAfterUndo(n: nat, st: CubeState)
    requires Good(n, st) && |st.undoList| > 0
    ensures RedoStep(n, UndoStep(n, st)) == st.(actor := None)
  {
    var a := st.undoList[|st.undoList| - 1];
    assert Fits(n, a.slice) && Applicable(a);
    InvertUndoes(st.data, a);
    var st1 := UndoStep(n, st);
    assert st1.redoList[..|st1.redoList| - 1] == st.redoList;
    assert st1.undoList + [a] == st.undoList;
  }

  /** Undoing right after a redo puts everything back but the actor. */
  lemma UndoAfterRedo(n: nat, st: CubeState)
    requires Good(n, st) && |st.redoList| > 0
    ensures UndoStep(n, RedoStep(n, st)) == st.(actor := None)
  {
    var a := st.redoList[|st.redoList| - 1];
    assert Fits(n, a.slice) && Applicable(a);
    InvertUndoes(st.data, a);
    var st1 := RedoStep(n, st);
    assert st1.undoList[..|st1.undoList| - 1] == st.undoList;
    assert st1.redoList + [a] == st.redoList;
  }

  /** With nothing to undo, undo only drops the actor: the colours stay as they are. */
  lemma UndoNothing(n: nat, st: CubeState)
    requires Good(n, st) && |st.undoList| == 0
    ensures UndoStep(n, st).data == st.data && UndoStep(n, st).redoList == st.redoList
  {
  }

  /** A move that throws leaves the whole state as it was. */
  lemma AdjustThrows(n: nat, st: CubeState, a: CubeAction)
    requires Good(n, st) && Fits(n, a.slice) && !Applicable(a)
    ensures AdjustStep(n, st, a) == st
  {
    ApplicableSucceeds(st.data, a);
  }

  /** A move made after an undo forgets what could have been redone. */
  lemma AdjustClearsRedo(n: nat, st: CubeState, a: CubeAction)
    requires Good(n, st) && Fits(n, a.slice) && Applicable(a)
    ensures AdjustStep(n, st, a).redoList == []
    ensures AdjustStep(n, st, a).undoList == st.undoList + [a]
    ensures AdjustStep(n, st, a).data == Apply(st.data, a)
  {
    ApplicableSucceeds(st.data, a);
  }

  /** `CanUndo` promises that after an undo there is still a move left to undo. */
  lemma CanUndoLeavesOne(n: nat, st: CubeState)
    requires Good(n, st) && CanUndo(st)
    ensures |UndoStep(n, st).undoList| == |st.undoList| - 1 > 0
  {
  }

  /** The colours after a run of moves. */
  function ApplyAll(d: seq<int>, moves: seq<CubeAction>): (e: seq<int>)
    ensures |e| == |d|
    decreases |moves|
  {
    if |moves| == 0 then d
    else ApplyAll(Apply(d, moves[0]), moves[1..])
  }

  /** The state after `k` calls of `nextMove()`. */
  function Pull(n: nat, st: CubeState, k: nat): (r: CubeState)
    decreases k
  {
    if k == 0 then st else Pull(n, NextStep(n, st), k - 1)
  }

  /** An actor whose moves are all applicable is drained by one more `nextMove()` than it has
      moves: each move is made and stacked in order, and the actor is then dropped. */
  lemma {:induction false} ActorDrains(n: nat, st: CubeState, moves: seq<CubeAction>)
    requires Good(n, st) && st.actor == Some(moves)
    requires Stackable(n, moves)
    ensures Pull(n, st, |moves| + 1) == CubeState(
      ApplyAll(st.data, moves), st.undoList + moves,
      if |moves| == 0 then st.redoList else [], None)
    decreases |moves|
  {
    if |moves| == 0 {
      assert Pull(n, st, 1) == Pull(n, NextStep(n, st), 0);
    } else {
      var a, rest := moves[0], moves[1..];
      PullOne(n, st, moves);
      var st1 := CubeState(Apply(st.data, a), st.undoList + [a], [], Some(rest));
      ActorDrains(n, st1, rest);
      PullUnfold(n, st, |moves|);
      ApplyAllUnfold(st.data, moves);
      Rejoin(Pull(n, st, |moves| + 1), ApplyAll(st.data, moves), st.undoList, moves);
    }
  }

  /** The stacks regrouped: pushing the first move and then the rest pushes them all. */
  lemma Rejoin(p: CubeState, e: seq<int>, u: seq<CubeAction>, moves: seq<CubeAction>)
    requires |moves| > 0 && p == CubeState(e, u + [moves[0]] + moves[1..], [], None)
    ensures p == CubeState(e, u + moves, [], None)
  {
    assert u + [moves[0]] + moves[1..] == u + moves;
  }

  lemma PullUnfold(n: nat, st: CubeState, k: nat)
    ensures Pull(n, st, k + 1) == Pull(n, NextStep(n, st), k)
  {
  }

  lemma ApplyAllUnfold(d: seq<int>, moves: seq<CubeAction>)
    requires |moves| > 0
    ensures ApplyAll(d, moves) == ApplyAll(Apply(d, moves[0]), moves[1..])
  {
  }

  /** One `nextMove()` on an actor with an applicable move ahead makes and stacks that move. */
  lemma PullOne(n: nat, st: CubeState, moves: seq<CubeAction>)
    requires Good(n, st) && st.actor == Some(moves) && |moves| > 0 && Applicable(moves[0])
    ensures NextStep(n, st) == CubeState(Apply(st.data, moves[0]), st.undoList + [moves[0]], [], Some(moves[1..]))
  {
    AdjustClearsRedo(n, st.(actor := Some(moves[1..])), moves[0]);
  }

  /** The legacy `Cube`: a colour buffer with its undo and redo stacks and an optional actor. */
  class Cube {
    const dim: nat
    const config: CubeConfig
    var undoList: seq<CubeAction>
    var redoList: seq<CubeAction>
    var actor: Option<seq<CubeAction>>

    function State(): CubeState
      reads this, config, config.data
    {
      CubeState(config.data[..], undoList, redoList, actor)
    }

    predicate Valid()
      reads this, config, config.data
    {
      config.Valid() && config.dim == dim && Good(dim, State())
    }

    /** `new Cube(dim)`: a solved cube of side `dim` with empty stacks. */
    constructor (dim: nat)
      ensures Valid() && State() == Initial(dim)
      ensures fresh(config) && fresh(config.data)
    {
      this.dim := dim;
      config := new CubeConfig(dim);
      undoList := [];
      redoList := [];
      actor := None;
    }

    /** `adjust(action)`. */
    method Adjust(action: CubeAction) returns (r: Result<()>)
      requires Valid() && Fits(dim, action.slice)
      modifies this, config.data
      ensures Valid() && State() == AdjustStep(dim, old(State()), action)
      ensures r.Success? <==> Applicable(action)
    {
      ApplicableSucceeds(config.data[..], action);
      var res := config.Adjust(action.slice, action.angle);
      if res.Failure? {
        return Failure(res.message);
      }
      undoList := undoList + [action];
      redoList := [];
      r := Success(());
    }

    /** `undo()`. */
    method Undo()
      requires Valid()
      modifies this, config.data
      ensures Valid() && State() == UndoStep(dim, old(State()))
    {
      actor := None;
      if |undoList| > 0 {
        var action := undoList[|undoList| - 1];
        undoList := undoList[..|undoList| - 1];
        var inverse := Invert(action);
        var res := config.Adjust(action.slice, inverse.angle);
        if res.Success? {
          redoList := redoList + [action];
        }
      }
    }

    /** `redo()`. */
    method Redo()
      requires Valid()
      modifies this, config.data
      ensures Valid() && State() == RedoStep(dim, old(State()))
    {
      actor := None;
      if |redoList| > 0 {
        var action := redoList[|redoList| - 1];
        redoList := redoList[..|redoList| - 1];
        var res := config.Adjust(action.slice, action.angle);
        if res.Success? {
          undoList := undoList + [action];
        }
      }
    }

    /** `nextMove()`: fails as `adjust` does when the move throws. */
    method NextMove() returns (r: Result<()>)
      requires Valid()
      modifies this, config.data
      ensures Valid() && State() == NextStep(dim, old(State()))
      ensures r.Failure? <==> old(actor).Some? && |old(actor).value| > 0 && !Applicable(old(actor).value[0])
    {
      r := Success(());
      if actor.None? {
        return;
      }
      var moves := actor.value;
      if |moves| == 0 {
        actor := None;
      } else {
        actor := Some(moves[1..]);
        r := Adjust(moves[0]);
      }
    }

    /** `setActor(actor)`. */
    method SetActor(next: Option<seq<CubeAction>>) returns (r: Result<()>)
      requires Valid() && (next.Some? ==> Fitting(dim, next.value))
      modifies this, config.data
      ensures Valid() && State() == SetActorStep(dim, old(State()), next)
      ensures r.Failure? <==> next.Some? && |next.value| > 0 && !Applicable(next.value[0])
    {
      actor := next;
      r := Success(());
      if next.Some? {
        r := NextMove();
      }
    }

    /** `canUndo()`. */
    function CanUndoNow(): (r: bool)
      reads this
      ensures r <==> |undoList| > 1
    {
      |undoList| > 1
    }
  }
}
