// The move notation of the solver: a face letter, an optional angle and an optional layer range.
module Sequences {
  import opened Numbers
  import opened Wrappers
  import opened Faces
  import Orientations
  import Actions

  /** One parsed move: turn `face` by `angle` quarters, on every layer from `start` to `end`. */
  datatype SequenceMove = SequenceMove(face: Face, angle: int, start: nat, end: nat)

  // Characters.

  /** The face named by a letter of `LRDUBF`. */
  function FaceLetter(c: char): Option<Face>
  {
    match c
    case 'L' => Some(Left)
    case 'R' => Some(Right)
    case 'D' => Some(Bottom)
    case 'U' => Some(Top)
    case 'B' => Some(Back)
    case 'F' => Some(Front)
    case _ => None
  }

  /** The letter naming a face. */
  function Letter(f: Face): (c: char)
    ensures FaceLetter(c) == Some(f)
  {
    match f
    case 0 => 'L'
    case 1 => 'R'
    case 2 => 'D'
    case 3 => 'U'
    case 4 => 'B'
    case _ => 'F'
  }

  /** Each face has exactly one letter. */
  lemma LetterUnique(c: char, f: Face)
    requires FaceLetter(c) == Some(f)
    ensures c == Letter(f)
  {
  }

  predicate IsDigit(c: char)
  {
    '0' <= c <= '9'
  }

  /** The value of a digit character (and 0 for any other character). */
  function DigitValue(c: char): nat
  {
    if IsDigit(c) then (c as int) - ('0' as int) else 0
  }

  function DigitChar(d: nat): (c: char)
    requires d < 10
    ensures IsDigit(c) && DigitValue(c) == d
  {
    ('0' as int + d) as char
  }

  predicate AllDigits(s: seq<char>)
  {
    forall k :: 0 <= k < |s| ==> IsDigit(s[k])
  }

  /** How many digits `s` starts with: the greedy `[0-9]+` (zero when the group fails). */
  function DigitCount(s: seq<char>): (k: nat)
    ensures k <= |s|
  {
    if |s| > 0 && IsDigit(s[0]) then 1 + DigitCount(s[1..]) else 0
  }

  /** The decimal value of a run of digits, as `+digits` computes it (leading zeros allowed). */
  function Decimal(s: seq<char>): nat
  {
    if |s| == 0 then 0 else Decimal(s[..|s| - 1]) * 10 + DigitValue(s[|s| - 1])
  }

  /** The decimal text of a natural number, without leading zeros. */
  function NatText(n: nat): (s: seq<char>)
    ensures |s| > 0
  {
    if n < 10 then [DigitChar(n)] else NatText(n / 10) + [DigitChar(n % 10)]
  }

  /** The decimal text of a number is all digits. */
  lemma {:induction false} NatTextDigits(n: nat)
    ensures AllDigits(NatText(n))
  {
    if n >= 10 {
      NatTextDigits(n / 10);
    }
  }

  /** The digit count stops at the first character that is not a digit. */
  lemma {:induction false} DigitCountStops(s: seq<char>)
    ensures AllDigits(s[..DigitCount(s)])
    ensures DigitCount(s) == |s| || !IsDigit(s[DigitCount(s)])
  {
    if |s| > 0 && IsDigit(s[0]) {
      DigitCountStops(s[1..]);
      assert s[..DigitCount(s)] == [s[0]] + s[1..][..DigitCount(s[1..])];
    }
  }

  // Matching one move. Every function below reads `s` from the character after the face letter.

  /** A greedy `[0-9]+` at the start of `s`: its value and its length (0 when it fails). */
  function Number(s: seq<char>): (r: (nat, nat))
    ensures r.1 <= |s|
  {
    var k := DigitCount(s);
    (Decimal(s[..k]), k)
  }

  /** The angle group `(2|'|\((-?[0-9]+)\))?`: the angle and how many characters it took. When
      the group does not match, the angle is 1 and nothing is taken. */
  function AngleGroup(s: seq<char>): (r: (int, nat))
    ensures r.1 <= |s|
  {
    if |s| > 0 && s[0] == '2' then (2, 1)
    else if |s| > 0 && s[0] == '\'' then (-1, 1)
    else if |s| > 0 && s[0] == '(' then
      var neg := |s| > 1 && s[1] == '-';
      var from := if neg then 2 else 1;
      var (v, k) := Number(s[from..]);
      if k > 0 && from + k < |s| && s[from + k] == ')' then
        (if neg then -(v as int) else v, from + k + 1)
      else (1, 0)
    else (1, 0)
  }

  /** The layer group `(\+([0-9]+)(:([0-9]+))?)?`: first and last layer and how many characters
      it took. When the group does not match, the layers are 0..0. */
  function LayerGroup(s: seq<char>): (r: (nat, nat, nat))
    ensures r.2 <= |s|
  {
    if |s| > 0 && s[0] == '+' then
      var (first, k) := Number(s[1..]);
      if k == 0 then (0, 0, 0)
      else
        var rest := s[1 + k..];
        if |rest| > 0 && rest[0] == ':' then
          var (last, j) := Number(rest[1..]);
          if j > 0 then (first, last, 1 + k + 1 + j) else (first, first, 1 + k)
        else (first, first, 1 + k)
    else (0, 0, 0)
  }

  /** The match that starts at a face letter: the move and the length of the match. */
  function MatchMove(f: Face, s: seq<char>): (r: (SequenceMove, nat))
    ensures r.0.face == f && r.1 <= |s|
  {
    var (angle, a) := AngleGroup(s);
    var (first, last, b) := LayerGroup(s[a..]);
    (SequenceMove(f, angle, first, last), a + b)
  }

  /** The moves of a text, as the global regular expression finds them from the start: a match
      starts at every face letter, and any other character is passed over. */
  function Scan(s: seq<char>): seq<SequenceMove>
  {
    if |s| == 0 then []
    else match FaceLetter(s[0])
      case None => Scan(s[1..])
      case Some(f) =>
        var (m, k) := MatchMove(f, s[1..]);
        [m] + Scan(s[1 + k..])
  }

  /** The match found at position `i` of a text: the move and where the scan goes on, or
      nothing when the character there is not a face letter. */
  function MatchAt(spec: seq<char>, i: nat): (r: (Option<SequenceMove>, nat))
    requires i < |spec|
    ensures i < r.1 <= |spec|
  {
    match FaceLetter(spec[i])
    case None => (None, i + 1)
    case Some(f) =>
      var (m, k) := MatchMove(f, spec[i + 1..]);
      (Some(m), i + 1 + k)
  }

  /** The moves a step of the scan contributes: the match, or nothing. */
  function Found(m: Option<SequenceMove>): seq<SequenceMove>
  {
    if m.Some? then [m.value] else []
  }

  /** One step of the scan: the match at `i`, if any, comes first, and the scan goes on from where
      that match ends. */
  lemma {:induction false} ScanAt(spec: seq<char>, i: nat)
    requires i < |spec|
    ensures Scan(spec[i..]) == Found(MatchAt(spec, i).0) + Scan(spec[MatchAt(spec, i).1..])
  {
    if FaceLetter(spec[i]).Some? {
      ScanAtLetter(spec, i, FaceLetter(spec[i]).value);
    } else {
      ScanAtOther(spec, i);
    }
  }

  lemma ScanAtLetter(spec: seq<char>, i: nat, f: Face)
    requires i < |spec| && FaceLetter(spec[i]) == Some(f)
    ensures Scan(spec[i..]) == Found(MatchAt(spec, i).0) + Scan(spec[MatchAt(spec, i).1..])
  {
    var tail := spec[i + 1..];
    var mk := MatchMove(f, tail);
    var m, k := mk.0, mk.1;
    MatchAtLetter(spec, i, tail, f, m, k);
    ScanLetterStep(spec, i, spec[i..], tail, f, m, k);
    var j := MatchAt(spec, i).1;
    assert j == i + 1 + k;
    assert Found(MatchAt(spec, i).0) == [m];
    assert spec[j..] == spec[i + 1 + k..];
  }

  lemma ScanAtOther(spec: seq<char>, i: nat)
    requires i < |spec| && FaceLetter(spec[i]).None?
    ensures Scan(spec[i..]) == Found(MatchAt(spec, i).0) + Scan(spec[MatchAt(spec, i).1..])
  {
    var rest, tail := spec[i..], spec[i + 1..];
    assert MatchAt(spec, i) == (None, i + 1);
    assert rest[0] == spec[i] && rest[1..] == tail;
    ScanOther(rest, tail);
  }

  lemma MatchAtLetter(spec: seq<char>, i: nat, tail: seq<char>, f: Face, m: SequenceMove, k: nat)
    requires i < |spec| && tail == spec[i + 1..] && FaceLetter(spec[i]) == Some(f)
    requires MatchMove(f, tail) == (m, k)
    ensures MatchAt(spec, i) == (Some(m), i + 1 + k)
  {
  }

  lemma ScanLetterStep(spec: seq<char>, i: nat, rest: seq<char>, tail: seq<char>, f: Face, m: SequenceMove, k: nat)
    requires i < |spec| && rest == spec[i..] && tail == spec[i + 1..] && FaceLetter(spec[i]) == Some(f)
    requires MatchMove(f, tail) == (m, k)
    ensures i + 1 + k <= |spec| && Scan(rest) == [m] + Scan(spec[i + 1 + k..])
  {
    assert rest[0] == spec[i] && rest[1..] == tail;
    assert spec[i + 1 + k..] == rest[1 + k..];
    ScanFrom(rest, tail, f, m, k);
  }

  lemma ScanFrom(rest: seq<char>, tail: seq<char>, f: Face, m: SequenceMove, k: nat)
    requires |rest| > 0 && FaceLetter(rest[0]) == Some(f) && tail == rest[1..]
    requires MatchMove(f, tail) == (m, k) && 1 + k <= |rest|
    ensures Scan(rest) == [m] + Scan(rest[1 + k..])
  {
  }

  lemma ScanOther(rest: seq<char>, tail: seq<char>)
    requires |rest| > 0 && FaceLetter(rest[0]).None? && tail == rest[1..]
    ensures Scan(rest) == [] + Scan(tail)
  {
    assert [] + Scan(tail) == Scan(tail);
  }

  /** The moves found so far, followed by the scan of the rest, stay the scan of the whole text
      across one step. */
  lemma ParseStep(spec: seq<char>, i: nat, moves: seq<SequenceMove>)
    requires i < |spec| && moves + Scan(spec[i..]) == Scan(spec)
    ensures moves + Found(MatchAt(spec, i).0) + Scan(spec[MatchAt(spec, i).1..]) == Scan(spec)
  {
    ScanAt(spec, i);
    var found, later := Found(MatchAt(spec, i).0), Scan(spec[MatchAt(spec, i).1..]);
    Associative(moves, found, later);
  }

  /** Concatenation is associative. */
  lemma Associative<T>(a: seq<T>, b: seq<T>, c: seq<T>)
    ensures a + b + c == a + (b + c)
  {
  }

  /** `new Sequence(spec)`: matches moves from the start of the text, one after another, and keeps
      them in the order they appear. */
  method Parse(spec: seq<char>) returns (moves: seq<SequenceMove>)
    ensures moves == Scan(spec)
  {
    moves := [];
    var i := 0;
    while i < |spec|
      invariant 0 <= i <= |spec|
      invariant moves + Scan(spec[i..]) == Scan(spec)
      decreases |spec| - i
    {
      var (m, j) := MatchAt(spec, i);
      ParseStep(spec, i, moves);
      moves := moves + Found(m);
      i := j;
    }
  }

  // Lengths and actions.

  /** `SequenceMove.getLength()`: quarter turns times layers. */
  function MoveLength(m: SequenceMove): int
  {
    Abs(m.angle) * (m.end - m.start + 1)
  }

  /** The sum of the move lengths. */
  function TotalLength(moves: seq<SequenceMove>): int
  {
    if |moves| == 0 then 0 else TotalLength(moves[..|moves| - 1]) + MoveLength(moves[|moves| - 1])
  }

  /** `Sequence.getLength()`: adds up the move lengths in order. */
  method GetLength(moves: seq<SequenceMove>) returns (length: int)
    ensures length == TotalLength(moves)
  {
    length := 0;
    for i := 0 to |moves|
      invariant length == TotalLength(moves[..i])
    {
      assert moves[..i + 1][..i] == moves[..i];
      length := length + MoveLength(moves[i]);
    }
    assert moves[..|moves|] == moves;
  }

  /** `SequenceMove.getActions(cube)`: one action per layer, from the first layer up to the last. */
  function MoveActions(o: Orientations.CubeOrientation, m: SequenceMove): seq<Actions.CubeAction>
  {
    if m.end < m.start then []
    else seq(m.end - m.start + 1, k requires 0 <= k => Orientations.GetAction(o, m.face, m.start + k, m.angle))
  }

  /** `Sequence.getActions(cube)`: the actions of every move, in order. */
  function SequenceActions(o: Orientations.CubeOrientation, moves: seq<SequenceMove>): seq<Actions.CubeAction>
  {
    if |moves| == 0 then [] else SequenceActions(o, moves[..|moves| - 1]) + MoveActions(o, moves[|moves| - 1])
  }

  /** The quarter turns an action list makes. */
  function QuarterTurns(actions: seq<Actions.CubeAction>): nat
  {
    if |actions| == 0 then 0 else QuarterTurns(actions[..|actions| - 1]) + Abs(actions[|actions| - 1].angle)
  }

  // Writing moves back as text.

  /** The angle modifier that parses back to `angle`. */
  function AngleText(angle: int): seq<char>
  {
    if angle == 1 then []
    else if angle == 2 then ['2']
    else if angle == -1 then ['\'']
    else if angle < 0 then ['(', '-'] + NatText(-angle) + [')']
    else ['('] + NatText(angle) + [')']
  }

  /** The layer suffix that parses back to `start..end`. */
  function LayerText(start: nat, end: nat): seq<char>
  {
    if start == 0 && end == 0 then []
    else if start == end then ['+'] + NatText(start)
    else ['+'] + NatText(start) + [':'] + NatText(end)
  }

  function FormatMove(m: SequenceMove): (s: seq<char>)
    ensures |s| > 0 && s[0] == Letter(m.face)
  {
    [Letter(m.face)] + AngleText(m.angle) + LayerText(m.start, m.end)
  }

  /** The text of a list of moves, one after another. */
  function Format(moves: seq<SequenceMove>): seq<char>
  {
    if |moves| == 0 then [] else FormatMove(moves[0]) + Format(moves[1..])
  }

  /** A text that cannot extend the match before it: empty, or starting with a face letter. */
  predicate StartsMove(s: seq<char>)
  {
    |s| == 0 || FaceLetter(s[0]).Some?
  }

  lemma FormatStartsMove(moves: seq<SequenceMove>)
    ensures StartsMove(Format(moves))
  {
  }

  /** A run of digits followed by a non-digit is counted whole. */
  lemma {:induction false} DigitCountOf(ds: seq<char>, rest: seq<char>)
    requires AllDigits(ds) && (|rest| == 0 || !IsDigit(rest[0]))
    ensures DigitCount(ds + rest) == |ds|
    decreases |ds|
  {
    if |ds| > 0 {
      assert (ds + rest)[1..] == ds[1..] + rest;
      DigitCountOf(ds[1..], rest);
    } else {
      assert ds + rest == rest;
    }
  }

  /** Reading the decimal text of a number gives the number back. */
  lemma {:induction false} DecimalOfText(n: nat)
    ensures Decimal(NatText(n)) == n
  {
    if n >= 10 {
      var s := NatText(n);
      assert s[..|s| - 1] == NatText(n / 10);
      DecimalOfText(n / 10);
    }
  }

  /** The digits of a number, followed by a non-digit, are read back as that number. */
  lemma NumberRead(n: nat, rest: seq<char>)
    requires |rest| == 0 || !IsDigit(rest[0])
    ensures Number(NatText(n) + rest) == (n, |NatText(n)|)
  {
    NatTextDigits(n);
    DigitCountOf(NatText(n), rest);
    assert (NatText(n) + rest)[..|NatText(n)|] == NatText(n);
    DecimalOfText(n);
  }

  /** A text the angle group cannot take anything from. */
  predicate NoAngle(s: seq<char>)
  {
    |s| == 0 || (s[0] != '2' && s[0] != '\'' && s[0] != '(')
  }

  /** A parenthesised angle is read back whole. */
  lemma ParenthesisedRead(n: nat, neg: bool, rest: seq<char>)
    ensures var t := (if neg then ['(', '-'] else ['(']) + NatText(n) + [')'];
      AngleGroup(t + rest) == (if neg then -(n as int) else n, |t|)
  {
    var p := if neg then ['(', '-'] else ['('];
    var d := NatText(n);
    var s := p + d + [')'] + rest;
    assert s[|p|..] == d + ([')'] + rest);
    assert s[1] == if neg then '-' else d[0];
    NatTextDigits(n);
    NumberRead(n, [')'] + rest);
    assert s[|p| + |d|] == ')';
  }

  /** An angle modifier is read back whole when nothing after it extends it. */
  lemma AngleRead(angle: int, rest: seq<char>)
    requires NoAngle(rest)
    ensures AngleGroup(AngleText(angle) + rest) == (angle, |AngleText(angle)|)
  {
    if angle == 1 || angle == 2 || angle == -1 {
      ShortAngleRead(angle, rest);
    } else {
      var neg := angle < 0;
      var n: nat := if neg then -angle else angle;
      ParenthesisedRead(n, neg, rest);
      assert AngleText(angle) == (if neg then ['(', '-'] else ['(']) + NatText(n) + [')'];
    }
  }

  /** A plain, doubled or primed move's modifier is read back whole. */
  lemma ShortAngleRead(angle: int, rest: seq<char>)
    requires NoAngle(rest) && (angle == 1 || angle == 2 || angle == -1)
    ensures AngleGroup(AngleText(angle) + rest) == (angle, |AngleText(angle)|)
  {
    if angle == 1 {
      assert AngleText(angle) + rest == rest;
    } else {
      var c := if angle == 2 then '2' else '\'';
      assert AngleText(angle) + rest == [c] + rest;
      assert ([c] + rest)[0] == c;
    }
  }

  /** A single layer `+k` is read back whole before another move. */
  lemma OneLayerRead(k: nat, rest: seq<char>)
    requires StartsMove(rest)
    ensures LayerGroup(['+'] + NatText(k) + rest) == (k, k, 1 + |NatText(k)|)
  {
    var t := NatText(k);
    var s := ['+'] + t + rest;
    assert s[1..] == t + rest;
    NumberRead(k, rest);
    assert s[1 + |t|..] == rest;
  }

  /** A layer range `+k:m` is read back whole before another move. */
  lemma RangeRead(t: seq<char>, u: seq<char>, rest: seq<char>, k: nat, m: nat, s: seq<char>, n: nat)
    requires StartsMove(rest) && |t| > 0 && |u| > 0
    requires Number(t + ([':'] + u + rest)) == (k, |t|) && Number(u + rest) == (m, |u|)
    requires s == ['+'] + t + ([':'] + u + rest) && n == 1 + |t| + 1 + |u|
    ensures LayerGroup(s) == (k, m, n)
  {
    var tail := [':'] + u + rest;
    assert s[1..] == t + tail;
    assert s[1 + |t|..] == tail;
    assert tail[1..] == u + rest;
  }

  /** A layer range `+k:m` with `k != m` is read back whole before another move. */
  lemma TwoLayerRead(start: nat, end: nat, rest: seq<char>)
    requires StartsMove(rest) && start != end
    ensures LayerGroup(LayerText(start, end) + rest) == (start, end, |LayerText(start, end)|)
  {
    var t, u := NatText(start), NatText(end);
    var tail := [':'] + u + rest;
    NumberRead(start, tail);
    NumberRead(end, rest);
    TwoLayerText(start, end, t, u, rest, tail);
    RangeRead(t, u, rest, start, end, LayerText(start, end) + rest, |LayerText(start, end)|);
  }

  /** The text of a layer range, split at the first number. */
  lemma TwoLayerText(start: nat, end: nat, t: seq<char>, u: seq<char>, rest: seq<char>, tail: seq<char>)
    requires start != end && t == NatText(start) && u == NatText(end) && tail == [':'] + u + rest
    ensures LayerText(start, end) + rest == ['+'] + t + tail
    ensures |LayerText(start, end)| == 1 + |t| + 1 + |u|
  {
    assert LayerText(start, end) == ['+'] + t + [':'] + u;
    Regroup(['+'], t, [':'], u, rest);
  }

  /** A layer suffix is read back whole before another move. */
  lemma LayerRead(start: nat, end: nat, rest: seq<char>)
    requires StartsMove(rest)
    ensures LayerGroup(LayerText(start, end) + rest) == (start, end, |LayerText(start, end)|)
  {
    if start == 0 && end == 0 {
      assert LayerText(start, end) + rest == rest;
    } else if start == end {
      OneLayerRead(start, rest);
    } else {
      TwoLayerRead(start, end, rest);
    }
  }

  /** Concatenation regrouped, with nothing known about the parts. */
  lemma Regroup<T>(a: seq<T>, b: seq<T>, c: seq<T>, d: seq<T>, e: seq<T>)
    ensures a + b + c + d + e == a + b + (c + d + e)
  {
  }

  /** A match is the angle group followed by the layer group. */
  lemma MatchOf(f: Face, x: seq<char>, y: seq<char>, rest: seq<char>, m: SequenceMove)
    requires m.face == f
    requires AngleGroup(x + (y + rest)) == (m.angle, |x|)
    requires LayerGroup(y + rest) == (m.start, m.end, |y|)
    ensures MatchMove(f, x + (y + rest)) == (m, |x| + |y|)
  {
    assert (x + (y + rest))[|x|..] == y + rest;
  }

  /** The text after a letter, an angle and a layer suffix. */
  lemma AfterMove(c: char, x: seq<char>, y: seq<char>, rest: seq<char>)
    ensures var s := [c] + x + y + rest;
      s[0] == c && s[1..] == x + (y + rest) && s[1 + |x| + |y|..] == rest
  {
  }

  /** A formatted move followed by another move is matched as exactly that move. */
  lemma MoveRead(m: SequenceMove, rest: seq<char>)
    requires StartsMove(rest)
    ensures Scan(FormatMove(m) + rest) == [m] + Scan(rest)
  {
    var a := AngleText(m.angle);
    var l := LayerText(m.start, m.end);
    assert NoAngle(l + rest) by {
      if |l| == 0 { assert l + rest == rest; }
    }
    AngleRead(m.angle, l + rest);
    LayerRead(m.start, m.end, rest);
    MatchOf(m.face, a, l, rest, m);
    AfterMove(Letter(m.face), a, l, rest);
  }

  /** Formatting moves and parsing the text gives the same moves back. */
  lemma {:induction false} ScanFormat(moves: seq<SequenceMove>)
    ensures Scan(Format(moves)) == moves
  {
    if |moves| > 0 {
      FormatStartsMove(moves[1..]);
      MoveRead(moves[0], Format(moves[1..]));
      ScanFormat(moves[1..]);
    }
  }

  /** Characters that are not face letters are passed over. */
  lemma {:induction false} ScanSkips(junk: seq<char>, s: seq<char>)
    requires forall k :: 0 <= k < |junk| ==> FaceLetter(junk[k]).None?
    ensures Scan(junk + s) == Scan(s)
  {
    if |junk| > 0 {
      assert (junk + s)[1..] == junk[1..] + s;
      ScanSkips(junk[1..], s);
    } else {
      assert junk + s == s;
    }
  }

  /** A bare letter is one quarter turn of the outer layer. */
  lemma ScanLetter(c: char, f: Face)
    requires FaceLetter(c) == Some(f)
    ensures Scan([c]) == [SequenceMove(f, 1, 0, 0)]
  {
  }

  // What the lengths count.

  /** The actions of a move turn its face, relabelled by the orientation, once per layer from
      the first to the last, each by the move's angle up to the orientation's handedness. */
  lemma MoveActionsLayers(o: Orientations.CubeOrientation, m: SequenceMove)
    ensures var r := MoveActions(o, m);
      |r| == (if m.end < m.start then 0 else m.end - m.start + 1)
      && forall k :: 0 <= k < |r| ==>
        r[k].config == o.config && r[k].face == Orientations.MapFace(o, m.face)
        && r[k].offset == m.start + k && Abs(r[k].angle) == Abs(m.angle)
  {
    var r := MoveActions(o, m);
    forall k | 0 <= k < |r|
      ensures r[k].config == o.config && r[k].face == Orientations.MapFace(o, m.face)
      ensures r[k].offset == m.start + k && Abs(r[k].angle) == Abs(m.angle)
    {
      assert r[k] == Orientations.GetAction(o, m.face, m.start + k, m.angle);
    }
  }

  lemma {:induction false} TotalLengthAppend(a: seq<SequenceMove>, b: seq<SequenceMove>)
    ensures TotalLength(a + b) == TotalLength(a) + TotalLength(b)
    decreases |b|
  {
    if |b| > 0 {
      assert (a + b)[..|a + b| - 1] == a + b[..|b| - 1];
      TotalLengthAppend(a, b[..|b| - 1]);
    } else {
      assert a + b == a;
    }
  }

  lemma {:induction false} SequenceActionsAppend(o: Orientations.CubeOrientation, a: seq<SequenceMove>, b: seq<SequenceMove>)
    ensures SequenceActions(o, a + b) == SequenceActions(o, a) + SequenceActions(o, b)
    decreases |b|
  {
    if |b| > 0 {
      assert (a + b)[..|a + b| - 1] == a + b[..|b| - 1];
      SequenceActionsAppend(o, a, b[..|b| - 1]);
    } else {
      assert a + b == a;
    }
  }

  lemma {:induction false} QuarterTurnsAppend(x: seq<Actions.CubeAction>, y: seq<Actions.CubeAction>)
    ensures QuarterTurns(x + y) == QuarterTurns(x) + QuarterTurns(y)
    decreases |y|
  {
    if |y| > 0 {
      assert (x + y)[..|x + y| - 1] == x + y[..|y| - 1];
      QuarterTurnsAppend(x, y[..|y| - 1]);
    } else {
      assert x + y == x;
    }
  }

  /** Actions that all turn by the same number of quarters. */
  lemma {:induction false} QuarterTurnsUniform(actions: seq<Actions.CubeAction>, q: nat)
    requires forall k :: 0 <= k < |actions| ==> Abs(actions[k].angle) == q
    ensures QuarterTurns(actions) == |actions| * q
  {
    if |actions| > 0 {
      QuarterTurnsUniform(actions[..|actions| - 1], q);
    }
  }

  /** A move's length is the number of quarter turns its actions make, when its layer range is
      not reversed. */
  lemma MoveLengthCounts(o: Orientations.CubeOrientation, m: SequenceMove)
    requires m.start <= m.end + 1
    ensures QuarterTurns(MoveActions(o, m)) == MoveLength(m)
  {
    var r := MoveActions(o, m);
    var q := Abs(m.angle);
    MoveActionsAngles(o, m, q);
    QuarterTurnsUniform(r, q);
    assert |r| * q == q * (m.end - m.start + 1);
  }

  /** The actions of a move all turn by the move's angle, up to the sign. */
  lemma MoveActionsAngles(o: Orientations.CubeOrientation, m: SequenceMove, q: nat)
    requires q == Abs(m.angle)
    ensures |MoveActions(o, m)| == (if m.end < m.start then 0 else m.end - m.start + 1)
    ensures forall k :: 0 <= k < |MoveActions(o, m)| ==> Abs(MoveActions(o, m)[k].angle) == q
  {
    MoveActionsLayers(o, m);
  }

  /** `getLength()` counts the quarter turns `getActions()` makes, whatever the orientation, as
      long as no move has a reversed layer range. */
  lemma {:induction false} LengthIsQuarterTurns(o: Orientations.CubeOrientation, moves: seq<SequenceMove>)
    requires forall k :: 0 <= k < |moves| ==> moves[k].start <= moves[k].end + 1
    ensures QuarterTurns(SequenceActions(o, moves)) == TotalLength(moves)
  {
    if |moves| > 0 {
      var init := moves[..|moves| - 1];
      LengthIsQuarterTurns(o, init);
      QuarterTurnsAppend(SequenceActions(o, init), MoveActions(o, moves[|moves| - 1]));
      MoveLengthCounts(o, moves[|moves| - 1]);
    }
  }

  // The actions on another cube.

  /** On a copy of the cube seen through the same labels a sequence yields the same turns, each
      aimed at the copy. */
  lemma {:induction false} ActionsOnCopy(o: Orientations.CubeOrientation, p: Orientations.CubeOrientation, moves: seq<SequenceMove>)
    requires Orientations.LabelsOf(o) == Orientations.LabelsOf(p)
    ensures |SequenceActions(p, moves)| == |SequenceActions(o, moves)|
    ensures forall k :: 0 <= k < |SequenceActions(o, moves)| ==>
      SequenceActions(p, moves)[k] == SequenceActions(o, moves)[k].(config := p.config)
  {
    if |moves| > 0 {
      var init, m := moves[..|moves| - 1], moves[|moves| - 1];
      ActionsOnCopy(o, p, init);
      MoveActionsLayers(o, m);
      MoveActionsLayers(p, m);
      var x, y := MoveActions(o, m), MoveActions(p, m);
      forall k | 0 <= k < |x|
        ensures y[k] == x[k].(config := p.config)
      {
        assert x[k] == Orientations.GetAction(o, m.face, m.start + k, m.angle);
        assert y[k] == Orientations.GetAction(p, m.face, m.start + k, m.angle);
      }
    }
  }

  /** Every action of a sequence whose layers all lie below `n` turns a layer in `0..n`, of the
      cube the sequence is read on. */
  lemma {:induction false} ActionsWithin(o: Orientations.CubeOrientation, moves: seq<SequenceMove>, n: nat)
    requires forall k :: 0 <= k < |moves| ==> moves[k].end < n
    ensures forall k :: 0 <= k < |SequenceActions(o, moves)| ==>
      SequenceActions(o, moves)[k].config == o.config && 0 <= SequenceActions(o, moves)[k].offset < n
  {
    if |moves| > 0 {
      ActionsWithin(o, moves[..|moves| - 1], n);
      MoveActionsLayers(o, moves[|moves| - 1]);
    }
  }

  /** A reversed layer range such as `R+3:1` yields no action, yet counts a negative length. */
  lemma ReversedRange(o: Orientations.CubeOrientation)
    ensures Scan("R+3:1") == [SequenceMove(Right, 1, 3, 1)]
    ensures MoveActions(o, SequenceMove(Right, 1, 3, 1)) == []
    ensures TotalLength(Scan("R+3:1")) == -1
  {
    var m := SequenceMove(Right, 1, 3, 1);
    ScanFormat([m]);
    assert Format([m]) == "R+3:1";
  }
}
