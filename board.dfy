/**
 * The 6x6 board: cells, adjacency, the four move directions and the
 * players' start corners.
 */
module Board {

  /** BOARD_SIZE: the board has Size x Size cells. */
  const Size: int := 6

  /** A cell (an IVec2 in the source), addressed by column x and row y. */
  datatype Cell = Cell(x: int, y: int)

  const Origin: Cell := Cell(0, 0)

  predicate InBounds(c: Cell) {
    0 <= c.x < Size && 0 <= c.y < Size
  }

  function Abs(n: int): nat {
    if n < 0 then -n else n
  }

  /** Two cells are adjacent when their Manhattan distance is exactly 1. */
  predicate Adjacent(a: Cell, b: Cell) {
    Abs(a.x - b.x) + Abs(a.y - b.y) == 1
  }

  function Min(a: int, b: int): int {
    if a <= b then a else b
  }

  /** A move request: one of the four axis-aligned unit steps. */
  datatype Direction = Up | Down | Left | Right

  /** MoveRequest::delta. */
  function Delta(d: Direction): (r: Cell)
    ensures Abs(r.x) + Abs(r.y) == 1
    ensures d == Up ==> r.y > 0
    ensures d == Down ==> r.y < 0
    ensures d == Left ==> r.x < 0
    ensures d == Right ==> r.x > 0
  {
    match d
    case Up => Cell(0, 1)
    case Down => Cell(0, -1)
    case Left => Cell(-1, 0)
    case Right => Cell(1, 0)
  }

  /** The cell a request in direction d asks to move to from c. */
  function Target(c: Cell, d: Direction): (r: Cell)
    ensures Adjacent(c, r)
  {
    Cell(c.x + Delta(d).x, c.y + Delta(d).y)
  }

  /** The direction that leads from a to an adjacent cell b. */
  function DirectionTo(a: Cell, b: Cell): (d: Direction)
    requires Adjacent(a, b)
    ensures Target(a, d) == b
  {
    if b.y > a.y then Up
    else if b.y < a.y then Down
    else if b.x < a.x then Left
    else Right
  }

  /** Every direction reaches an adjacent cell, and distinct directions reach distinct cells. */
  lemma TargetAdjacentAndDistinct(c: Cell, d: Direction, e: Direction)
    ensures Adjacent(c, Target(c, d))
    ensures Target(c, d) == Target(c, e) ==> d == e
    ensures DirectionTo(c, Target(c, d)) == d
  {
  }

  /** get_player_start_coords: player n starts at ((n / 2) * 5, (n % 2) * 5). */
  function StartCoords(n: nat): (c: Cell)
    ensures n < 4 ==> InBounds(c)
    ensures n < 4 ==> (c.x == 0 || c.x == Size - 1) && (c.y == 0 || c.y == Size - 1)
  {
    Cell(n / 2 * (Size - 1), n % 2 * (Size - 1))
  }

  /** The four players start in the four distinct corners. */
  lemma StartCornersDistinct(m: nat, n: nat)
    requires m < 4 && n < 4 && m != n
    ensures StartCoords(m) != StartCoords(n)
  {
  }

  lemma StartCornersAre()
    ensures StartCoords(0) == Cell(0, 0) && StartCoords(1) == Cell(0, 5)
    ensures StartCoords(2) == Cell(5, 0) && StartCoords(3) == Cell(5, 5)
  {
  }
}
