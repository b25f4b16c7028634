/** `runProcess` of the bottom-edge stage: a process is a text of moves in a small notation,
    with at most one parameter, `$<digits>`, put in first; each move becomes one action of the
    cube, and a `!` move ends the process. */
module Processes {
  import opened Wrappers
  import opened Numbers
  import opened Faces
  import Orientations
  import Actions
  import Sequences

  // The process notation: `(-|\+|!)?([LRFBUD])([1-9][0-9]*)?`, matched from the start.

  /** A matched move: turn the layer at depth `offset` below `face` by `angle`; `Stop` is a
      move written with `!`, which ends the process. */
  datatype Token = Turn(face: Face, offset: int, angle: int) | Stop

  /** A first digit of the layer number, `[1-9]`. */
  predicate IsLeading(c: char)
  {
    '1' <= c <= '9'
  }

  /** The layer group `([1-9][0-9]*)?` and `+(digits || "1") - 1`: the offset and how many
      characters the group took. */
  function LayerOffset(s: seq<char>): (r: (int, nat))
    ensures r.1 <= |s|
  {
    if |s| > 0 && IsLeading(s[0]) then
      var (v, k) := Sequences.Number(s);
      (v - 1, k)
    else (0, 0)
  }

  /** The match starting at the first character of `s`, if one starts there, and its length. */
  function MatchAt(s: seq<char>): (r: Option<(Token, nat)>)
    ensures r.Some? ==> 0 < r.value.1 <= |s|
  {
    if |s| >= 2 && (s[0] == '-' || s[0] == '+' || s[0] == '!') && Sequences.FaceLetter(s[1]).Some? then
      var (offset, k) := LayerOffset(s[2..]);
      var t := if s[0] == '!' then Stop
        else Turn(Sequences.FaceLetter(s[1]).value, offset, if s[0] == '-' then -1 else 2);
      Some((t, 2 + k))
    else if |s| >= 1 && Sequences.FaceLetter(s[0]).Some? then
      var (offset, k) := LayerOffset(s[1..]);
      Some((Turn(Sequences.FaceLetter(s[0]).value, offset, 1), 1 + k))
    else None
  }

  /** The matches the global expression finds, in order; characters no match starts at are
      passed over. */
  function Tokens(s: seq<char>): seq<Token>
  {
    if |s| == 0 then []
    else match MatchAt(s)
      case None => Tokens(s[1..])
      case Some((t, k)) => [t] + Tokens(s[k..])
  }

  /** The moves before the first `!`. */
  function Moves(tokens: seq<Token>): (moves: seq<Token>)
    ensures forall k :: 0 <= k < |moves| ==> moves[k].Turn?
  {
    if |tokens| == 0 || tokens[0].Stop? then [] else [tokens[0]] + Moves(tokens[1..])
  }

  /** `cube.getAction(face, offset, angle)` for each move, in order. */
  function ActionsOf(o: Orientations.CubeOrientation, moves: seq<Token>): (r: seq<Actions.CubeAction>)
    requires forall k :: 0 <= k < |moves| ==> moves[k].Turn?
    ensures |r| == |moves|
  {
    seq(|moves|, k requires 0 <= k < |moves| => Orientations.GetAction(o, moves[k].face, moves[k].offset, moves[k].angle))
  }

  /** The actions `runProcess` yields for the matches, until the first `!`. */
  function Emit(o: Orientations.CubeOrientation, tokens: seq<Token>): seq<Actions.CubeAction>
  {
    ActionsOf(o, Moves(tokens))
  }

  // Parameters: the first `$<digits>` is replaced by an argument.

  /** A process argument: a number (an angle) or a text. */
  datatype Arg = Num(n: int) | Text(t: seq<char>)

  /** A `$` followed by a digit starts at `q`. */
  predicate KeyAt(s: seq<char>, q: int)
  {
    0 <= q && q + 1 < |s| && s[q] == '$' && Sequences.IsDigit(s[q + 1])
  }

  /** The leftmost `\$([0-9]+)` at or after `from`. */
  function FindKey(s: seq<char>, from: nat): (p: Option<nat>)
    ensures p.Some? ==> from <= p.value && KeyAt(s, p.value)
    ensures p.Some? ==> forall q :: from <= q < p.value ==> !KeyAt(s, q)
    ensures p.None? ==> forall q :: from <= q ==> !KeyAt(s, q)
    decreases |s| - from
  {
    if from + 1 >= |s| then None
    else if KeyAt(s, from) then Some(from)
    else FindKey(s, from + 1)
  }

  /** The prefix a number stands for: by its remainder modulo 4, `!` for 0, none for 1, `+` for
      2 and `-` for 3. */
  function Mark(n: int): seq<char>
  {
    var q := NormalizeInt(n, 4);
    if q == 0 then "!" else if q == 1 then "" else if q == 2 then "+" else "-"
  }

  /** What replaces `$key`: a number picks a prefix by its remainder modulo 4 (`!` for 0, none
      for 1, `+` for 2, `-` for 3), a non-empty text is used as it is, and anything else (an
      empty text, or no argument at that index) is an error naming the key. */
  function Replacement(key: seq<char>, arg: Option<Arg>): Result<seq<char>>
  {
    match arg
    case Some(Num(n)) => Success(Mark(n))
    case Some(Text(t)) =>
      if |t| > 0 then Success(t) else Failure("Expected process parameter '" + key + "'")
    case None => Failure("Expected process parameter '" + key + "'")
  }

  /** `process.replace(/\$([0-9]+)/, ...)`: only the first key is replaced. */
  function Substitute(process: seq<char>, args: seq<Arg>): Result<seq<char>>
  {
    match FindKey(process, 0)
    case None => Success(process)
    case Some(p) =>
      var k := Sequences.DigitCount(process[p + 1..]);
      var key := process[p + 1..p + 1 + k];
      var i := Sequences.Decimal(key);
      match Replacement(key, if i < |args| then Some(args[i]) else None)
      case Failure(e) => Failure(e)
      case Success(r) => Success(process[..p] + r + process[p + 1 + k..])
  }

  /** What `runProcess(cube, process, ...args)` yields, or the error it throws. */
  function ProcessActions(o: Orientations.CubeOrientation, process: seq<char>, args: seq<Arg>): Result<seq<Actions.CubeAction>>
  {
    match Substitute(process, args)
    case Failure(e) => Failure(e)
    case Success(s) => Success(Emit(o, Tokens(s)))
  }

  /** The substitution step of `runProcess`: looks for the first key, then replaces it. */
  method SubstituteFirst(process: seq<char>, args: seq<Arg>) returns (r: Result<seq<char>>)
    ensures r == Substitute(process, args)
  {
    var p := 0;
    while p + 1 < |process| && !KeyAt(process, p)
      invariant 0 <= p && forall q :: 0 <= q < p ==> !KeyAt(process, q)
      decreases |process| - p
    {
      p := p + 1;
    }
    if p + 1 >= |process| {
      return Success(process);
    }
    var k := Sequences.DigitCount(process[p + 1..]);
    var key := process[p + 1..p + 1 + k];
    var i := Sequences.Decimal(key);
    var replaced := Replacement(key, if i < |args| then Some(args[i]) else None);
    if replaced.Failure? {
      return Failure(replaced.message);
    }
    return Success(process[..p] + replaced.value + process[p + 1 + k..]);
  }

  /** The matching loop of `runProcess`: each match in turn, until the text ends or a `!`; the
      moves are then yielded as actions. */
  method EmitMoves(o: Orientations.CubeOrientation, s: seq<char>) returns (out: seq<Actions.CubeAction>)
    ensures out == Emit(o, Tokens(s))
  {
    var moves: seq<Token> := [];
    var i := 0;
    ScanStart(s);
    while i < |s|
      invariant Scanned(s, i, moves)
      decreases |s| - i
    {
      var m := MatchAt(s[i..]);
      if m.None? {
        ScanSkip(s, i, moves);
        i := i + 1;
      } else {
        var t := m.value.0;
        var k := m.value.1;
        if t.Stop? {
          ScanStop(s, i, moves, t, k);
          break;
        }
        ScanMove(s, i, moves, t, k);
        moves := moves + [t];
        i := i + k;
      }
    }
    if i == |s| {
      ScanEnd(s, moves);
    }
    out := ActionsOf(o, moves);
  }

  /** The matching loop has read `s` up to `i`, having kept `moves`: the moves of the whole
      text are those and the moves of the rest. */
  predicate Scanned(s: seq<char>, i: int, moves: seq<Token>)
  {
    0 <= i <= |s| && (forall k :: 0 <= k < |moves| ==> moves[k].Turn?) &&
    Moves(Tokens(s)) == moves + Moves(Tokens(s[i..]))
  }

  lemma ScanStart(s: seq<char>)
    ensures Scanned(s, 0, [])
  {
    assert s[0..] == s;
  }

  lemma ScanSkip(s: seq<char>, i: int, moves: seq<Token>)
    requires Scanned(s, i, moves) && i < |s| && MatchAt(s[i..]).None?
    ensures Scanned(s, i + 1, moves)
  {
    TokensSkip(s, i);
  }

  lemma ScanStop(s: seq<char>, i: int, moves: seq<Token>, t: Token, k: nat)
    requires Scanned(s, i, moves) && i < |s| && MatchAt(s[i..]) == Some((t, k)) && t.Stop?
    ensures Moves(Tokens(s)) == moves
  {
    TokensStep(s, i, t, k);
    assert moves + [] == moves;
  }

  lemma ScanMove(s: seq<char>, i: int, moves: seq<Token>, t: Token, k: nat)
    requires Scanned(s, i, moves) && i < |s| && MatchAt(s[i..]) == Some((t, k)) && t.Turn?
    ensures Scanned(s, i + k, moves + [t])
  {
    TokensStep(s, i, t, k);
    var rest := Tokens(s[i + k..]);
    assert ([t] + rest)[1..] == rest;
    Regroup3(moves, [t], Moves(rest));
  }

  lemma ScanEnd(s: seq<char>, moves: seq<Token>)
    requires Scanned(s, |s|, moves)
    ensures Moves(Tokens(s)) == moves
  {
    assert s[|s|..] == [];
    assert moves + [] == moves;
  }

  lemma Regroup3<T>(a: seq<T>, b: seq<T>, c: seq<T>)
    ensures a + (b + c) == a + b + c
  {
  }

  lemma Head<T>(a: seq<T>, b: seq<T>)
    requires |a| > 0
    ensures (a + b)[0] == a[0]
  {
  }

  lemma TokensSkip(s: seq<char>, i: int)
    requires 0 <= i < |s| && MatchAt(s[i..]).None?
    ensures Tokens(s[i..]) == Tokens(s[i + 1..])
  {
    assert s[i..][1..] == s[i + 1..];
  }

  lemma TokensStep(s: seq<char>, i: int, t: Token, k: nat)
    requires 0 <= i < |s| && MatchAt(s[i..]) == Some((t, k))
    ensures i + k <= |s| && Tokens(s[i..]) == [t] + Tokens(s[i + k..])
  {
    assert s[i..][k..] == s[i + k..];
  }

  lemma EmitTurn(o: Orientations.CubeOrientation, t: Token, rest: seq<Token>)
    requires t.Turn?
    ensures Emit(o, [t] + rest) == [Orientations.GetAction(o, t.face, t.offset, t.angle)] + Emit(o, rest)
  {
    assert ([t] + rest)[1..] == rest;
  }

  /** `runProcess`: substitutes the first parameter, then matches moves one after another and
      yields each move's action, returning at the first `!`. */
  method RunProcess(o: Orientations.CubeOrientation, process: seq<char>, args: seq<Arg>) returns (r: Result<seq<Actions.CubeAction>>)
    ensures r == ProcessActions(o, process, args)
  {
    var s := SubstituteFirst(process, args);
    if s.Failure? {
      return Failure(s.message);
    }
    var out := EmitMoves(o, s.value);
    return Success(out);
  }

  // Writing processes: the notation read back.

  /** The prefix that reads back as `angle`. */
  function PrefixText(angle: int): seq<char>
  {
    if angle == -1 then "-" else if angle == 2 then "+" else ""
  }

  /** A move the notation can write: a quarter turn either way or a half turn, at a layer. */
  predicate Writable(t: Token)
  {
    t.Turn? && (t.angle == 1 || t.angle == -1 || t.angle == 2) && t.offset >= 0
  }

  /** A move in the notation: the prefix, the letter, and the layer number unless it is 1. */
  function TokenText(t: Token): (s: seq<char>)
    requires Writable(t)
    ensures |s| > 0
  {
    PrefixText(t.angle) + [Sequences.Letter(t.face)] + (if t.offset == 0 then [] else Sequences.NatText(t.offset + 1))
  }

  function ProcessText(tokens: seq<Token>): seq<char>
    requires forall k :: 0 <= k < |tokens| ==> Writable(tokens[k])
  {
    if |tokens| == 0 then [] else TokenText(tokens[0]) + ProcessText(tokens[1..])
  }

  /** A text that cannot extend a layer number before it. */
  predicate NoDigit(s: seq<char>)
  {
    |s| == 0 || !Sequences.IsDigit(s[0])
  }

  /** The decimal text of a positive number starts with a digit other than 0. */
  lemma {:induction false} NatTextLeading(n: nat)
    requires n >= 1
    ensures IsLeading(Sequences.NatText(n)[0])
  {
    if n >= 10 {
      NatTextLeading(n / 10);
      assert Sequences.NatText(n)[0] == Sequences.NatText(n / 10)[0];
    }
  }

  /** A layer number is read back whole. */
  lemma OffsetRead(offset: int, rest: seq<char>)
    requires offset >= 0 && NoDigit(rest)
    ensures var t := if offset == 0 then [] else Sequences.NatText(offset + 1);
      LayerOffset(t + rest) == (offset, |t|)
  {
    if offset == 0 {
      assert [] + rest == rest;
    } else {
      NatTextLeading(offset + 1);
      Sequences.NumberRead(offset + 1, rest);
    }
  }

  /** A prefix, a letter and a layer number are matched as one move. */
  lemma MatchParts(p: seq<char>, f: Face, d: seq<char>, rest: seq<char>, offset: int)
    requires p == "" || p == "-" || p == "+"
    requires LayerOffset(d + rest) == (offset, |d|)
    ensures MatchAt(p + [Sequences.Letter(f)] + d + rest)
         == Some((Turn(f, offset, if p == "-" then -1 else if p == "+" then 2 else 1), |p| + 1 + |d|))
  {
    var c := Sequences.Letter(f);
    var s := p + [c] + d + rest;
    if |p| == 0 {
      assert s == [c] + (d + rest);
      BareMove(c, d + rest);
    } else {
      assert s == [p[0], c] + (d + rest);
      PrefixedMove(p[0], c, d + rest);
    }
  }

  lemma BareMove(c: char, tail: seq<char>)
    requires Sequences.FaceLetter(c).Some?
    ensures MatchAt([c] + tail)
         == Some((Turn(Sequences.FaceLetter(c).value, LayerOffset(tail).0, 1), 1 + LayerOffset(tail).1))
  {
    var s := [c] + tail;
    assert s[0] == c && s[1..] == tail;
  }

  lemma PrefixedMove(q: char, c: char, tail: seq<char>)
    requires (q == '-' || q == '+') && Sequences.FaceLetter(c).Some?
    ensures MatchAt([q, c] + tail)
         == Some((Turn(Sequences.FaceLetter(c).value, LayerOffset(tail).0, if q == '-' then -1 else 2), 2 + LayerOffset(tail).1))
  {
    var s := [q, c] + tail;
    assert s[0] == q && s[1] == c && s[2..] == tail;
  }

  /** A written move, before a text that does not extend it, is matched as exactly that move. */
  lemma TokenRead(t: Token, rest: seq<char>)
    requires Writable(t) && NoDigit(rest)
    ensures MatchAt(TokenText(t) + rest) == Some((t, |TokenText(t)|))
  {
    var p := PrefixText(t.angle);
    var d := if t.offset == 0 then [] else Sequences.NatText(t.offset + 1);
    var l := [Sequences.Letter(t.face)];
    assert TokenText(t) + rest == p + l + d + rest && |TokenText(t)| == |p| + 1 + |d| by {
      assert TokenText(t) == p + l + d;
    }
    assert MatchAt(p + l + d + rest) == Some((t, |p| + 1 + |d|)) by {
      OffsetRead(t.offset, rest);
      MatchParts(p, t.face, d, rest, t.offset);
    }
  }

  /** A written move starts with its prefix or, without one, with its letter. */
  lemma TokenStart(t: Token)
    requires Writable(t)
    ensures !Sequences.IsDigit(TokenText(t)[0])
  {
    var p := PrefixText(t.angle);
    var d := if t.offset == 0 then [] else Sequences.NatText(t.offset + 1);
    assert TokenText(t) == p + [Sequences.Letter(t.face)] + d;
  }

  /** A match at the start is followed by the matches of the rest. */
  lemma TokensCons(t: seq<char>, u: seq<char>, tok: Token)
    requires |t| > 0 && MatchAt(t + u) == Some((tok, |t|))
    ensures Tokens(t + u) == [tok] + Tokens(u)
  {
    assert (t + u)[|t|..] == u;
  }

  /** A written process never starts with a digit. */
  lemma TextStart(tokens: seq<Token>, rest: seq<char>)
    requires forall k :: 0 <= k < |tokens| ==> Writable(tokens[k])
    requires NoDigit(rest)
    ensures NoDigit(ProcessText(tokens) + rest)
  {
    if |tokens| > 0 {
      var t := TokenText(tokens[0]);
      var u := ProcessText(tokens[1..]) + rest;
      Regroup3(t, ProcessText(tokens[1..]), rest);
      TokenStart(tokens[0]);
      Head(t, u);
    } else {
      assert ProcessText(tokens) + rest == rest;
    }
  }

  /** Written moves before a text that does not extend them are read back, in order. */
  lemma {:induction false} TokensOfText(tokens: seq<Token>, rest: seq<char>)
    requires forall k :: 0 <= k < |tokens| ==> Writable(tokens[k])
    requires NoDigit(rest)
    ensures Tokens(ProcessText(tokens) + rest) == tokens + Tokens(rest)
  {
    if |tokens| == 0 {
      assert ProcessText(tokens) + rest == rest;
    } else {
      var t := TokenText(tokens[0]);
      var pt := ProcessText(tokens[1..]);
      var u := pt + rest;
      assert Tokens(u) == tokens[1..] + Tokens(rest) by {
        TokensOfText(tokens[1..], rest);
      }
      assert Tokens(t + u) == [tokens[0]] + Tokens(u) by {
        TextStart(tokens[1..], rest);
        TokenRead(tokens[0], u);
        TokensCons(t, u, tokens[0]);
      }
      assert ProcessText(tokens) + rest == t + u by {
        Regroup3(t, pt, rest);
      }
      assert [tokens[0]] + (tokens[1..] + Tokens(rest)) == tokens + Tokens(rest) by {
        Regroup3([tokens[0]], tokens[1..], Tokens(rest));
        assert [tokens[0]] + tokens[1..] == tokens;
      }
    }
  }

  /** Written moves are read back exactly. */
  lemma ProcessTextRead(tokens: seq<Token>)
    requires forall k :: 0 <= k < |tokens| ==> Writable(tokens[k])
    ensures Tokens(ProcessText(tokens)) == tokens
  {
    TokensOfText(tokens, []);
    assert ProcessText(tokens) + [] == ProcessText(tokens);
  }

  /** A written process has no parameter to substitute. */
  lemma {:induction false} NoKeyInText(tokens: seq<Token>)
    requires forall k :: 0 <= k < |tokens| ==> Writable(tokens[k])
    ensures forall q :: 0 <= q < |ProcessText(tokens)| ==> ProcessText(tokens)[q] != '$'
  {
    if |tokens| > 0 {
      NoKeyInText(tokens[1..]);
      var t := tokens[0];
      if t.offset > 0 {
        Sequences.NatTextDigits(t.offset + 1);
      }
      var s := TokenText(t);
      assert forall q :: 0 <= q < |s| ==> s[q] != '$';
    }
  }

  /** Moves without a `!` are all yielded. */
  lemma {:induction false} MovesOfTurns(tokens: seq<Token>)
    requires forall k :: 0 <= k < |tokens| ==> tokens[k].Turn?
    ensures Moves(tokens) == tokens
  {
    if |tokens| > 0 {
      MovesOfTurns(tokens[1..]);
    }
  }

  /** Moves followed by a `!`: nothing after the `!` is yielded. */
  lemma {:induction false} MovesBeforeStop(tokens: seq<Token>, after: seq<Token>)
    requires forall k :: 0 <= k < |tokens| ==> tokens[k].Turn?
    requires |after| > 0 && after[0].Stop?
    ensures Moves(tokens + after) == tokens
  {
    if |tokens| == 0 {
      assert tokens + after == after;
    } else {
      assert (tokens + after)[1..] == tokens[1..] + after;
      MovesBeforeStop(tokens[1..], after);
    }
  }

  /** A `!` move ends the process: exactly the moves before it are yielded. */
  lemma StopEnds(tokens: seq<Token>, c: char, rest: seq<char>)
    requires forall k :: 0 <= k < |tokens| ==> Writable(tokens[k])
    requires Sequences.FaceLetter(c).Some?
    ensures Moves(Tokens(ProcessText(tokens) + (['!', c] + rest))) == tokens
  {
    TokensOfText(tokens, ['!', c] + rest);
    MovesBeforeStop(tokens, Tokens(['!', c] + rest));
  }

  /** A key written after a text without `$` and before a text that does not extend it is the
      first key, and its digits are read whole. */
  lemma KeyRead(pre: seq<char>, d: seq<char>, post: seq<char>)
    requires forall q :: 0 <= q < |pre| ==> pre[q] != '$'
    requires Sequences.AllDigits(d) && |d| > 0 && NoDigit(post)
    ensures var s := pre + ['$'] + d + post;
      && FindKey(s, 0) == Some(|pre|)
      && Sequences.DigitCount(s[|pre| + 1..]) == |d|
      && s[|pre| + 1..|pre| + 1 + |d|] == d
      && s[..|pre|] == pre && s[|pre| + 1 + |d|..] == post
  {
    var s := pre + ['$'] + d + post;
    assert KeyAt(s, |pre|);
    forall q | 0 <= q < |pre| ensures !KeyAt(s, q) {
      assert s[q] == pre[q];
    }
    assert s[|pre| + 1..] == d + post;
    Sequences.DigitCountOf(d, post);
  }

  /** A parameter given as a non-empty text is put in place of the first key. */
  lemma SubstituteText(pre: seq<char>, i: nat, post: seq<char>, args: seq<Arg>)
    requires forall q :: 0 <= q < |pre| ==> pre[q] != '$'
    requires NoDigit(post) && i < |args| && args[i].Text? && |args[i].t| > 0
    ensures Substitute(pre + ['$'] + Sequences.NatText(i) + post, args) == Success(pre + args[i].t + post)
  {
    Sequences.NatTextDigits(i);
    KeyRead(pre, Sequences.NatText(i), post);
    Sequences.DecimalOfText(i);
  }

  /** A missing parameter is an error naming its key. */
  lemma SubstituteMissing(pre: seq<char>, i: nat, post: seq<char>, args: seq<Arg>)
    requires forall q :: 0 <= q < |pre| ==> pre[q] != '$'
    requires NoDigit(post) && i >= |args|
    ensures Substitute(pre + ['$'] + Sequences.NatText(i) + post, args)
         == Failure("Expected process parameter '" + Sequences.NatText(i) + "'")
  {
    Sequences.NatTextDigits(i);
    KeyRead(pre, Sequences.NatText(i), post);
    Sequences.DecimalOfText(i);
  }

  /** An empty text parameter is an error naming its key, like a missing one. */
  lemma SubstituteEmpty(pre: seq<char>, i: nat, post: seq<char>, args: seq<Arg>)
    requires forall q :: 0 <= q < |pre| ==> pre[q] != '$'
    requires NoDigit(post) && i < |args| && args[i] == Text("")
    ensures Substitute(pre + ['$'] + Sequences.NatText(i) + post, args)
         == Failure("Expected process parameter '" + Sequences.NatText(i) + "'")
  {
    Sequences.NatTextDigits(i);
    KeyRead(pre, Sequences.NatText(i), post);
    Sequences.DecimalOfText(i);
  }

  /** A number parameter is put in place of the first key as the prefix of its remainder. */
  lemma SubstituteNumber(pre: seq<char>, i: nat, post: seq<char>, args: seq<Arg>)
    requires forall q :: 0 <= q < |pre| ==> pre[q] != '$'
    requires NoDigit(post) && i < |args| && args[i].Num?
    ensures Substitute(pre + ['$'] + Sequences.NatText(i) + post, args) == Success(pre + Mark(args[i].n) + post)
  {
    Sequences.NatTextDigits(i);
    KeyRead(pre, Sequences.NatText(i), post);
    Sequences.DecimalOfText(i);
  }

  /** The prefix a move takes from a number parameter makes it turn by that number of quarter
      turns (modulo 4); a multiple of 4 makes it a `!`, which ends the process. */
  lemma MarkTurns(n: int, f: Face, rest: seq<char>)
    requires NoDigit(rest)
    ensures var m := MatchAt(Mark(n) + [Sequences.Letter(f)] + rest);
      && m.Some? && m.value.1 == |Mark(n)| + 1
      && (n % 4 == 0 <==> m.value.0.Stop?)
      && (m.value.0.Turn? ==> m.value.0.face == f && m.value.0.offset == 0 && (m.value.0.angle - n) % 4 == 0)
  {
    OffsetRead(0, rest);
    assert [] + rest == rest;
    if NormalizeInt(n, 4) != 0 {
      MatchParts(Mark(n), f, [], rest, 0);
      assert Mark(n) + [Sequences.Letter(f)] + rest == Mark(n) + [Sequences.Letter(f)] + [] + rest;
    }
  }
}
