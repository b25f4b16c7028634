/** The three processes of the bottom-edge stage's actions, and the moves they are written
    with. */
module EdgeProcesses {
  import opened Faces
  import opened Processes

  /** The three actions of the bottom-edge stage. */
  datatype EdgeAction = Action1 | Action2 | Action3

  /** The process each action runs, cut at each move: "-F-LBL-BF-D-BDB", "L-R-FR-L+DL-R-FR-L" and
      "-B-DBDB-F-L-BLF". */
  function TextsOf(a: EdgeAction): seq<seq<char>>
  {
    match a
    case Action1 => ["-F", "-L", "B", "L", "-B", "F", "-D", "-B", "D", "B"]
    case Action2 => ["L", "-R", "-F", "R", "-L", "+D", "L", "-R", "-F", "R", "-L"]
    case Action3 => ["-B", "-D", "B", "D", "B", "-F", "-L", "-B", "L", "F"]
  }

  function ProcessOf(a: EdgeAction): seq<char>
  {
    Join(TextsOf(a))
  }

  /** The moves of each process, outer layer only. */
  function MovesOf(a: EdgeAction): seq<Token>
  {
    match a
    case Action1 => [Turn(Front, 0, -1), Turn(Left, 0, -1), Turn(Back, 0, 1), Turn(Left, 0, 1), Turn(Back, 0, -1),
                     Turn(Front, 0, 1), Turn(Bottom, 0, -1), Turn(Back, 0, -1), Turn(Bottom, 0, 1), Turn(Back, 0, 1)]
    case Action2 => [Turn(Left, 0, 1), Turn(Right, 0, -1), Turn(Front, 0, -1), Turn(Right, 0, 1), Turn(Left, 0, -1),
                     Turn(Bottom, 0, 2), Turn(Left, 0, 1), Turn(Right, 0, -1), Turn(Front, 0, -1), Turn(Right, 0, 1),
                     Turn(Left, 0, -1)]
    case Action3 => [Turn(Back, 0, -1), Turn(Bottom, 0, -1), Turn(Back, 0, 1), Turn(Bottom, 0, 1), Turn(Back, 0, 1),
                     Turn(Front, 0, -1), Turn(Left, 0, -1), Turn(Back, 0, -1), Turn(Left, 0, 1), Turn(Front, 0, 1)]
  }

  /** The texts of the moves, one after the other. */
  function Join(texts: seq<seq<char>>): seq<char>
  {
    if |texts| == 0 then [] else texts[0] + Join(texts[1..])
  }

  /** From move `i` on, every move is writable and written as its text. */
  predicate WrittenFrom(ms: seq<Token>, texts: seq<seq<char>>, i: nat)
    requires |ms| == |texts|
    decreases |ms| - i
  {
    i >= |ms| || (Writable(ms[i]) && TokenText(ms[i]) == texts[i] && WrittenFrom(ms, texts, i + 1))
  }

  /** A process whose moves are written as the given texts is their concatenation. */
  lemma {:induction false} WrittenAs(ms: seq<Token>, texts: seq<seq<char>>, i: nat)
    requires |ms| == |texts| && i <= |ms| && WrittenFrom(ms, texts, i)
    ensures forall k :: i <= k < |ms| ==> Writable(ms[k])
    ensures ProcessText(ms[i..]) == Join(texts[i..])
    decreases |ms| - i
  {
    if i < |ms| {
      WrittenAs(ms, texts, i + 1);
      assert ms[i..][1..] == ms[i + 1..];
      assert texts[i..][1..] == texts[i + 1..];
    }
  }

  lemma Moves1Written()
    ensures |MovesOf(Action1)| == |TextsOf(Action1)| && WrittenFrom(MovesOf(Action1), TextsOf(Action1), 0)
  {
  }

  lemma Moves2Written()
    ensures |MovesOf(Action2)| == |TextsOf(Action2)| && WrittenFrom(MovesOf(Action2), TextsOf(Action2), 0)
  {
  }

  lemma Moves3Written()
    ensures |MovesOf(Action3)| == |TextsOf(Action3)| && WrittenFrom(MovesOf(Action3), TextsOf(Action3), 0)
  {
  }

  /** Each move of each process is writable and is written as its piece of the process. */
  lemma MovesWritten(a: EdgeAction)
    ensures |MovesOf(a)| == |TextsOf(a)| && WrittenFrom(MovesOf(a), TextsOf(a), 0)
  {
    match a {
      case Action1 => Moves1Written();
      case Action2 => Moves2Written();
      case Action3 => Moves3Written();
    }
  }

  /** Every move of each process is writable, and the process is their written form. */
  lemma ProcessWritten(a: EdgeAction)
    ensures forall k :: 0 <= k < |MovesOf(a)| ==> Writable(MovesOf(a)[k])
    ensures ProcessOf(a) == ProcessText(MovesOf(a))
  {
    MovesWritten(a);
    WrittenAs(MovesOf(a), TextsOf(a), 0);
    assert MovesOf(a)[0..] == MovesOf(a) && TextsOf(a)[0..] == TextsOf(a);
  }

  /** The moves undoing a list of moves: the same moves in reverse order, each turned back. */
  function Undo(ms: seq<Token>): (r: seq<Token>)
    requires forall k :: 0 <= k < |ms| ==> ms[k].Turn?
    ensures |r| == |ms|
    ensures forall k :: 0 <= k < |ms| ==> r[k] == Turn(ms[|ms| - 1 - k].face, ms[|ms| - 1 - k].offset, -ms[|ms| - 1 - k].angle)
  {
    if |ms| == 0 then [] else Undo(ms[1..]) + [Turn(ms[0].face, ms[0].offset, -ms[0].angle)]
  }

  /** From move `i` on, `vs` holds the moves of `ms` turned back, in reverse order. */
  predicate UndoneFrom(ms: seq<Token>, vs: seq<Token>, i: nat)
    requires |vs| == |ms| && forall k :: 0 <= k < |ms| ==> ms[k].Turn?
    decreases |ms| - i
  {
    i >= |ms| ||
    (vs[i] == Turn(ms[|ms| - 1 - i].face, ms[|ms| - 1 - i].offset, -ms[|ms| - 1 - i].angle) && UndoneFrom(ms, vs, i + 1))
  }

  lemma {:induction false} UndoneAll(ms: seq<Token>, vs: seq<Token>, i: nat)
    requires |vs| == |ms| && forall k :: 0 <= k < |ms| ==> ms[k].Turn?
    requires UndoneFrom(ms, vs, i)
    ensures forall k :: i <= k < |ms| ==> vs[k] == Undo(ms)[k]
    decreases |ms| - i
  {
    if i < |ms| {
      UndoneAll(ms, vs, i + 1);
    }
  }

  lemma UndoneIs(ms: seq<Token>, vs: seq<Token>)
    requires |vs| == |ms| && forall k :: 0 <= k < |ms| ==> ms[k].Turn?
    requires UndoneFrom(ms, vs, 0)
    ensures vs == Undo(ms)
  {
    UndoneAll(ms, vs, 0);
  }

  /** The moves with moves `i` and `i + 1` exchanged. */
  function SwapAt(ms: seq<Token>, i: nat): (r: seq<Token>)
    requires i + 1 < |ms|
    ensures |r| == |ms|
  {
    ms[i := ms[i + 1]][i + 1 := ms[i]]
  }

  lemma FirstUndone()
    ensures |MovesOf(Action3)| == |MovesOf(Action1)| && forall k :: 0 <= k < |MovesOf(Action1)| ==> MovesOf(Action1)[k].Turn?
    ensures UndoneFrom(MovesOf(Action1), SwapAt(MovesOf(Action3), 4), 0)
  {
  }

  /** The third process undoes the first, up to the order of its fifth and sixth moves, which
      turn opposite faces (back, then front) and so do not affect each other. */
  lemma ThirdUndoesFirst()
    ensures MovesOf(Action3)[4].face == Back && MovesOf(Action3)[5].face == Front
    ensures SwapAt(MovesOf(Action3), 4) == Undo(MovesOf(Action1))
  {
    FirstUndone();
    UndoneIs(MovesOf(Action1), SwapAt(MovesOf(Action3), 4));
  }
}
