/**
  The eight jump vectors of the puzzle and the fixed order in which they are
  enumerated. A jump moves three cells along one axis, or two cells along
  both axes at once.
 */
module Directions {

  /** Distance of a horizontal or vertical jump. */
  const HV_OFFSET: int := 3

  /** Distance of a diagonal jump, on each axis. */
  const DIAG_OFFSET: int := 2

  datatype Direction =
    | Down
    | DownRight
    | Right
    | UpRight
    | Up
    | UpLeft
    | Left
    | DownLeft

  /** The enumeration order used when listing the possible moves. */
  const All: seq<Direction> := [Down, DownRight, Right, UpRight, Up, UpLeft, Left, DownLeft]

  /** Position of a direction in `All`. */
  function Index(d: Direction): (i: nat)
    ensures i < |All| && All[i] == d
  {
    match d
    case Down => 0
    case DownRight => 1
    case Right => 2
    case UpRight => 3
    case Up => 4
    case UpLeft => 5
    case Left => 6
    case DownLeft => 7
  }

  /** The (dx, dy) change a jump applies to the cursor; y grows downwards. */
  function Offset(d: Direction): (int, int)
  {
    match d
    case Down => (0, HV_OFFSET)
    case DownRight => (DIAG_OFFSET, DIAG_OFFSET)
    case Right => (HV_OFFSET, 0)
    case UpRight => (DIAG_OFFSET, -DIAG_OFFSET)
    case Up => (0, -HV_OFFSET)
    case UpLeft => (-DIAG_OFFSET, -DIAG_OFFSET)
    case Left => (-HV_OFFSET, 0)
    case DownLeft => (-DIAG_OFFSET, DIAG_OFFSET)
  }

  /** The geometric rule of the game, independent of the direction names:
      three cells orthogonally, or two cells diagonally. */
  predicate IsJump(dx: int, dy: int)
  {
    || (dx == 0 && (dy == 3 || dy == -3))
    || (dy == 0 && (dx == 3 || dx == -3))
    || ((dx == 2 || dx == -2) && (dy == 2 || dy == -2))
  }

  /** `All` lists every direction exactly once, and `Index` inverts it. */
  lemma AllEnumeratesDirections()
    ensures |All| == 8
    ensures forall d: Direction :: d in All
    ensures forall i, j :: 0 <= i < j < |All| ==> All[i] != All[j]
    ensures forall i :: 0 <= i < |All| ==> Index(All[i]) == i
  {
    forall d: Direction
      ensures d in All
    {
      assert All[Index(d)] == d;
    }
  }

  /** Every direction is a legal jump, and distinct directions jump to
      distinct places. */
  lemma OffsetsAreDistinctJumps()
    ensures forall d: Direction :: IsJump(Offset(d).0, Offset(d).1)
    ensures forall d: Direction, e: Direction :: Offset(d) == Offset(e) ==> d == e
  {
  }

  /** Conversely, every legal jump is the offset of some direction. */
  function DirectionOf(dx: int, dy: int): (d: Direction)
    requires IsJump(dx, dy)
    ensures Offset(d) == (dx, dy)
  {
    if dx == 0 then (if dy > 0 then Down else Up)
    else if dy == 0 then (if dx > 0 then Right else Left)
    else if dx > 0 then (if dy > 0 then DownRight else UpRight)
    else (if dy > 0 then DownLeft else UpLeft)
  }
}
