/** The six faces of the cube and the bit layout of their numbers: bits 1-2 name the axis
    (X = 0, Y = 2, Z = 4) and bit 0 says whether the face is on the positive side of it. */
module Faces {
  type Face = f: int | 0 <= f < 6

  const Left: Face := 0
  const Right: Face := 1
  const Bottom: Face := 2
  const Top: Face := 3
  const Back: Face := 4
  const Front: Face := 5

  const AxisX := 0
  const AxisY := 2
  const AxisZ := 4

  /** `face & Face.Axis`: the axis the face lies across. */
  function AxisOf(f: Face): (a: int)
    ensures a == AxisX || a == AxisY || a == AxisZ
    ensures a <= f <= a + 1
  {
    if f < 2 then AxisX else if f < 4 then AxisY else AxisZ
  }

  /** `face & Face.Positive`: 1 for Right, Top and Front, 0 for Left, Bottom and Back. */
  function SignOf(f: Face): (s: int)
    ensures s == 0 || s == 1
    ensures f == AxisOf(f) + s
  {
    f - AxisOf(f)
  }

  /** `face ^ Face.Positive`: the face on the other side of the same axis. */
  function Opposite(f: Face): (g: Face)
    ensures g != f && AxisOf(g) == AxisOf(f) && SignOf(g) == 1 - SignOf(f)
  {
    if SignOf(f) == 0 then f + 1 else f - 1
  }

  /** The three operations are the bit operations `& 6`, `& 1` and `^ 1` of the source. */
  lemma BitEncoding(f: Face)
    ensures AxisOf(f) == ((f as bv8) & 6) as int
    ensures SignOf(f) == ((f as bv8) & 1) as int
    ensures Opposite(f) == ((f as bv8) ^ 1) as int
  {
  }

  /** A face is fixed by its axis and sign, so opposite faces are the only pairs sharing an axis. */
  lemma SameAxis(f: Face, g: Face)
    requires AxisOf(f) == AxisOf(g)
    ensures g == f || g == Opposite(f)
  {
  }

  lemma OppositeInvolution(f: Face)
    ensures Opposite(Opposite(f)) == f
  {
  }
}
