/** The 20x20 toroidal board of the Snake game: cells, headings, and the
    one-cell move of a snake's head with wrap-around. */
module Board {

  /** Side length of the square board. */
  const BOARD_SIZE: int := 20

  datatype Option<T> = None | Some(value: T)

  /** A cell, as the `(x, y)` tuples of the game: x grows to the East, y to the South. */
  datatype Pos = Pos(x: int, y: int)

  predicate OnBoard(p: Pos) {
    0 <= p.x < BOARD_SIZE && 0 <= p.y < BOARD_SIZE
  }

  predicate AllOnBoard(cells: seq<Pos>) {
    forall i :: 0 <= i < |cells| ==> OnBoard(cells[i])
  }

  /** No cell occurs twice. */
  predicate NoDup(cells: seq<Pos>) {
    forall i, j :: 0 <= i < j < |cells| ==> cells[i] != cells[j]
  }

  datatype Direction = North | East | South | West

  function Opposite(d: Direction): Direction {
    match d
    case North => South
    case South => North
    case East => West
    case West => East
  }

  /** Unit offset of a heading along x. */
  function Dx(d: Direction): int {
    match d
    case East => 1
    case West => -1
    case _ => 0
  }

  /** Unit offset of a heading along y (North is y - 1). */
  function Dy(d: Direction): int {
    match d
    case South => 1
    case North => -1
    case _ => 0
  }

  /** The cell a head moves to in one tick. Only the axis of the heading
      changes; that coordinate is taken modulo BOARD_SIZE, Python's `%`
      agreeing with Dafny's for a positive divisor. */
  function NextHead(head: Pos, d: Direction): (r: Pos)
    ensures Dx(d) == 0 ==> r.x == head.x
    ensures Dy(d) == 0 ==> r.y == head.y
    ensures Dx(d) != 0 ==> 0 <= r.x < BOARD_SIZE && (r.x - head.x - Dx(d)) % BOARD_SIZE == 0
    ensures Dy(d) != 0 ==> 0 <= r.y < BOARD_SIZE && (r.y - head.y - Dy(d)) % BOARD_SIZE == 0
    ensures OnBoard(head) ==> OnBoard(r)
  {
    match d
    case North => Pos(head.x, (head.y - 1) % BOARD_SIZE)
    case South => Pos(head.x, (head.y + 1) % BOARD_SIZE)
    case West => Pos((head.x - 1) % BOARD_SIZE, head.y)
    case East => Pos((head.x + 1) % BOARD_SIZE, head.y)
  }

  /** A head always leaves its cell: the board is wider than one cell. */
  lemma NextHeadMoves(head: Pos, d: Direction)
    ensures NextHead(head, d) != head
  {
  }

  /** Moving back the opposite way undoes a move on the board. */
  lemma NextHeadUndone(head: Pos, d: Direction)
    requires OnBoard(head)
    ensures NextHead(NextHead(head, d), Opposite(d)) == head
  {
  }

  /** The reversal test of a direction change, as four explicit pairs. */
  predicate IsReverse(current: Direction, requested: Direction)
    ensures IsReverse(current, requested) <==> requested == Opposite(current)
  {
    (current == North && requested == South) ||
    (current == South && requested == North) ||
    (current == East && requested == West) ||
    (current == West && requested == East)
  }

  /** The direction a snake heads in after asking for `requested`. */
  function Steered(current: Direction, requested: Direction): (d: Direction)
    ensures d != Opposite(current)
    ensures requested != Opposite(current) ==> d == requested
    ensures requested == Opposite(current) ==> d == current
  {
    if IsReverse(current, requested) then current else requested
  }

  /** Asking for a heading and then for its opposite keeps the first answer. */
  lemma SteeredThenReversed(current: Direction, requested: Direction)
    ensures Steered(Steered(current, requested), Opposite(requested)) == Steered(current, requested)
  {
  }
}
