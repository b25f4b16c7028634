/** The cube a solver stage works on, taken as a value: the orientation it is seen through and
    the stickers of its buffer at that moment. The solver's stages yield actions and read the
    cube again once the consumer has applied them; `Perform` is that consumer. */
module Snapshots {
  import opened Wrappers
  import opened Faces
  import opened Config
  import Orientations
  import Actions

  datatype Cube = Cube(o: Orientations.CubeOrientation, data: seq<Int8>)

  function Size(c: Cube): nat
  {
    c.o.config.size
  }

  /** A buffer of the cube's size. */
  predicate WellFormed(c: Cube)
  {
    |c.data| == 6 * Size(c) * Size(c)
  }

  /** A sticker as the typed array returns it: nothing (`undefined`) outside the buffer. */
  function Read(c: Cube, index: int): (v: Option<Int8>)
    ensures v.Some? <==> 0 <= index < |c.data|
    ensures v.Some? ==> v.value == c.data[index]
  {
    if 0 <= index < |c.data| then Some(c.data[index]) else None
  }

  /** The same stickers seen through other labels. */
  function Relabel(c: Cube, o: Orientations.CubeOrientation): Cube
  {
    Cube(o, c.data)
  }

  /** `act()` of one action on the cube's stickers; an action whose layer lies outside the cube
      leaves them as they are. */
  function PerformOne(c: Cube, a: Actions.CubeAction): (r: Cube)
    ensures r.o == c.o && |r.data| == |c.data|
    ensures WellFormed(c) && 0 <= a.offset < Size(c) ==> r.data == Actions.Steps(c.data, Size(c), a.face, a.offset, a.angle)
    ensures !(WellFormed(c) && 0 <= a.offset < Size(c)) ==> r == c
  {
    if WellFormed(c) && 0 <= a.offset < Size(c) then
      Cube(c.o, Actions.Steps(c.data, Size(c), a.face, a.offset, a.angle))
    else c
  }

  /** The consumer of a stage: every yielded action acted on the cube, in order. */
  function Perform(c: Cube, actions: seq<Actions.CubeAction>): (r: Cube)
    ensures r.o == c.o && |r.data| == |c.data|
    decreases |actions|
  {
    if |actions| == 0 then c else Perform(PerformOne(c, actions[0]), actions[1..])
  }

  /** Performing two lists of actions is performing their concatenation. */
  lemma {:induction false} PerformAppend(c: Cube, a: seq<Actions.CubeAction>, b: seq<Actions.CubeAction>)
    ensures Perform(c, a + b) == Perform(Perform(c, a), b)
    decreases |a|
  {
    if |a| == 0 {
      assert a + b == b;
    } else {
      assert (a + b)[1..] == a[1..] + b;
      PerformAppend(PerformOne(c, a[0]), a[1..], b);
    }
  }

  /** The stickers after a list of actions depend only on the starting stickers, the size, and
      the face, layer and angle of each action: not on the labels or on the cube object the
      actions name. */
  lemma {:induction false} PerformElsewhere(c: Cube, d: Cube, a: seq<Actions.CubeAction>, b: seq<Actions.CubeAction>)
    requires Size(c) == Size(d) && c.data == d.data && |a| == |b|
    requires forall k :: 0 <= k < |a| ==> a[k].face == b[k].face && a[k].offset == b[k].offset && a[k].angle == b[k].angle
    ensures Perform(c, a).data == Perform(d, b).data
    decreases |a|
  {
    if |a| > 0 {
      PerformElsewhere(PerformOne(c, a[0]), PerformOne(d, b[0]), a[1..], b[1..]);
    }
  }

  /** Performing one more action. */
  lemma PerformLast(c: Cube, a: seq<Actions.CubeAction>, x: Actions.CubeAction)
    ensures Perform(c, a + [x]) == PerformOne(Perform(c, a), x)
  {
    PerformAppend(c, a, [x]);
  }

  /** Performing a prefix one action longer performs that action last. */
  lemma PerformNext(c: Cube, a: seq<Actions.CubeAction>, i: int)
    requires 0 <= i < |a|
    ensures Perform(c, a[..i + 1]) == PerformOne(Perform(c, a[..i]), a[i])
  {
    assert a[..i + 1] == a[..i] + [a[i]];
    PerformLast(c, a[..i], a[i]);
  }
}
