/** Board primitives the piece move generators rely on: the optional occupant
    of a square, the move record, and the on-board test. */
module Board {

  datatype Option<+T> = None | Some(value: T)

  /** A proposed move of the piece on (fromX, fromY) to (toX, toY). */
  datatype PieceMove = PieceMove(fromX: int, fromY: int, toX: int, toY: int)

  /** The contents of one square: None when it is empty, Some(p) when the
      piece standing on it belongs to player p. */
  type Square = Option<int>

  /** Width and height of the board. */
  const Size: int := 8

  /** The on-board test: both coordinates lie in [0, Size). */
  predicate IsValid(c: int, r: int)
  {
    0 <= c < Size && 0 <= r < Size
  }

  /** A board is an 8 by 8 grid of squares, indexed [column, row]. */
  predicate IsBoard(board: array2<Square>)
  {
    board.Length0 == Size && board.Length1 == Size
  }

  function Abs(n: int): (a: nat)
    ensures a == n || a == -n
  {
    if n < 0 then -n else n
  }

  /** (tx, ty) lies on one of the two diagonals through (x, y), less than
      Size squares away: tx == x + d1 * i and ty == y + d2 * i for some
      distance 0 <= i < Size and signs d1, d2 in {+1, -1}. */
  predicate OnDiagonal(x: int, y: int, tx: int, ty: int)
  {
    Abs(tx - x) == Abs(ty - y) < Size
  }
}
