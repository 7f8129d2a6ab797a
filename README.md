# Bishop move generation, modelled in Dafny

This project models the bishop of a two-player Android chess game. The model
covers the `Bishop` constructor and `Bishop.getMoves(x, y, board)`, the
method that lists the moves a bishop standing on `(x, y)` may make on an
8 by 8 board.

`getMoves` runs one loop over the distance `i = 0 .. 7`. For each distance
it examines four squares in a fixed order: up-right `(x+i, y+i)`, up-left
`(x-i, y+i)`, down-right `(x+i, y-i)` and down-left `(x-i, y-i)`. It handles
each square as follows:

- Off the board: the square is skipped.
- Empty: the move onto it is recorded.
- Occupied: the move onto it is recorded when the piece belongs to the other
  player, and then `break` leaves the whole loop.

The model follows the code as written in two places:

- The loop begins at distance 0. The first square examined is therefore the
  bishop's own square.
- The first occupied square ends all four diagonals, not just the one it
  lies on.

Files:

- `board.dfy`, module `Board`:
  - the square contents, an optional occupant carrying its player's number;
  - the `PieceMove` record `(fromX, fromY, toX, toY)`;
  - the on-board test `IsValid` (both coordinates in `[0, 8)`);
  - the diagonal relation `OnDiagonal`.
- `bishop.dfy`, module `Pieces`:
  - class `Bishop`, with the fields `player`, `value` and `kind` that the
    constructor sets, and the imperative method `GetMoves`;
  - the reference function `Scan` that `GetMoves` is proved equal to.
    `Scan` walks the 32 steps (distance, diagonal) in the loop's order, by
    the mutually recursive `Run`/`Continue`, and maps the recorded steps to
    moves;
  - lemmas that characterise `Scan`.
- `bishop_rays.dfy`, module `BishopRays`: the behaviour the class comment
  describes. Each diagonal is walked on its own from distance 1 and stops at
  its own first occupied square. The module proves that definition's
  properties and compares it with the code as written (see Findings).

The board is a two-dimensional array indexed `[column, row]`, as in the
source. `GetMoves` has no `modifies` clause, so it is proved to leave the
board untouched.

## Model

| member | source | states |
|---|---|---|
| Pieces.Bishop.constructor | app/src/main/java/com/cs301/chessapp/gamestate/pieces/Bishop.java:36-41 | the new bishop belongs to the given player, is worth 3 points and has type "Bishop" |
| Pieces.Bishop.GetMoves | app/src/main/java/com/cs301/chessapp/gamestate/pieces/Bishop.java:72-168 | the returned list is exactly `Scan(x, y, board, player)`: the moves for the steps the loop records, in the order it records them; the board is not changed |
| Pieces.RunExactly | app/src/main/java/com/cs301/chessapp/gamestate/pieces/Bishop.java:75-164 | from any point of the scan on, a step is recorded if and only if it was already recorded, or it is a later step whose square is on the board, is not friendly, and every on-board square examined between that point and it is empty |
| Pieces.ScanExactly | app/src/main/java/com/cs301/chessapp/gamestate/pieces/Bishop.java:75-164 | a step (distance 0..7, one of four diagonals) is recorded if and only if its square is on the board, does not hold a friendly piece, and every on-board square examined before it, on any diagonal, is empty |
| Pieces.RunOrdered | app/src/main/java/com/cs301/chessapp/gamestate/pieces/Bishop.java:75-164 | the recorded steps come in strictly increasing scan order, each is one of the 32 steps, and the scan adds at most one step per remaining step |
| Pieces.ScanOrder | app/src/main/java/com/cs301/chessapp/gamestate/pieces/Bishop.java:75-164 | there are at most 32 moves; move j is the move for recorded step j; earlier moves have a smaller distance, or the same distance and an earlier diagonal in the order up-right, up-left, down-right, down-left |
| Pieces.ScanDestinations | app/src/main/java/com/cs301/chessapp/gamestate/pieces/Bishop.java:78-163 | every move starts at (x, y) and ends on the board, on a diagonal through (x, y) |
| Pieces.ScanNoSelfCapture | app/src/main/java/com/cs301/chessapp/gamestate/pieces/Bishop.java:81-89 | no move ends on a square holding a piece of the bishop's player |
| Pieces.ScanOnlyLastOccupied | app/src/main/java/com/cs301/chessapp/gamestate/pieces/Bishop.java:81-95 | every move except the last ends on an empty square; only the last can be a capture |
| Pieces.RunExtends | app/src/main/java/com/cs301/chessapp/gamestate/pieces/Bishop.java:85-94 | the loop only ever appends to the list: what was recorded stays a prefix of the result |
| Pieces.FriendlyOriginNoMoves | app/src/main/java/com/cs301/chessapp/gamestate/pieces/Bishop.java:75-89 | when the bishop's own square holds a piece of its player, which is the normal case, the result is empty |
| Pieces.EnemyOriginOneMove | app/src/main/java/com/cs301/chessapp/gamestate/pieces/Bishop.java:75-89 | when the bishop's own square holds an enemy piece, the result is the single move from (x, y) to (x, y) |
| Pieces.EmptyOriginRun | app/src/main/java/com/cs301/chessapp/gamestate/pieces/Bishop.java:75-161 | when the bishop's own square is empty, the four distance-0 steps are recorded and the scan goes on at distance 1 |
| Pieces.EmptyOriginFourMoves | app/src/main/java/com/cs301/chessapp/gamestate/pieces/Bishop.java:75-161 | when the bishop's own square is empty, the result begins with four moves from (x, y) to (x, y) |
| BishopRays.RayExactly | app/src/main/java/com/cs301/chessapp/gamestate/pieces/Bishop.java:13-16 | one diagonal, walked from distance i, records a step if and only if the step is on that diagonal at distance i or more, on the board, not friendly, with every on-board square before it on that diagonal empty |
| BishopRays.IntendedExactly | app/src/main/java/com/cs301/chessapp/gamestate/pieces/Bishop.java:13-16 | the described behaviour records a step if and only if it is at distance 1..7, on the board, not friendly, with the squares between the bishop and it on its own diagonal empty |
| BishopRays.IntendedDestinations | app/src/main/java/com/cs301/chessapp/gamestate/pieces/Bishop.java:13-16 | every described move starts at (x, y), ends on another on-board square of a diagonal through it, and never on a friendly piece |
| BishopRays.RayLengthClear | app/src/main/java/com/cs301/chessapp/gamestate/pieces/Bishop.java:13-14 | a diagonal with nothing on it from distance i on runs to the board's edge: its length is the number of on-board squares from distance i to the edge |
| BishopRays.LoneBishop | app/src/main/java/com/cs301/chessapp/gamestate/pieces/Bishop.java:75-89 | for a bishop alone on the board, the code as written returns no move, while the described behaviour gives one move per square between the bishop and the edge on each of the four diagonals |
| BishopRays.LoneBishopAtCenter | app/src/main/java/com/cs301/chessapp/gamestate/pieces/Bishop.java:75-89 | a bishop alone on (3, 3) gets no move from the code as written and 13 from the described behaviour |
| BishopRays.BlockerEndsAllDiagonals | app/src/main/java/com/cs301/chessapp/gamestate/pieces/Bishop.java:88-89 | with (3, 3) empty and one friendly piece on (4, 4), the code as written returns only four moves from (3, 3) to (3, 3); the described behaviour blocks only the up-right diagonal and finds 9 moves |

## Left out

- `getDraw` (Bishop.java:43-60): it builds an Android `Path` from floating-point vertices. It is drawing only and has no bearing on the moves.
- `TAG` (Bishop.java:26): a logging tag that the file never uses.
- The claim "it cannot place its own king in check" (Bishop.java:16): `getMoves` does not test for check. The model does not invent a check test.
- `isValid` belongs to the `Piece` base class. `Piece.java` is not part of this model. It is modelled as `Board.IsValid`, `0 <= c < 8 && 0 <= r < 8`, which is an assumption about that code.
- `ChessSquare` and its `getPiece().getPlayer()` chain are not part of this model. A square is modelled as `None` (the Java `null`) or `Some(p)`, a square whose piece belongs to player `p`. The model therefore assumes that a non-null square always holds a piece. A non-null square with a null piece would throw in Java. That case is not modelled.
- `PieceMove` is not part of this model beyond its four coordinates.
- Pieces.Bishop.GetMoves: the board must be 8 by 8 (`IsBoard`). The Java code indexes the board only at squares `isValid` accepts, so a smaller array would throw. That failure is not modelled.
- Java `int` overflow in `x+i` or `y-i`: not modelled, because it makes no difference. Whenever `isValid` holds of the exact sum, the Java sum is exact too. A wrapped sum is far outside `[0, 8)`, so it is rejected just as the exact one is. Unbounded integers therefore give the same branches.
- Concurrency and aliasing: `getMoves` only reads the board. Another thread changing the board during the scan is not modelled.
- The model follows the code, not its comments, wherever the two differ. The comments describe per-diagonal rays that start next to the bishop and never include its own square. The code starts at distance 0 and one `break` ends all four diagonals. The described behaviour is kept separately, as `BishopRays`, and is not what `GetMoves` is proved to compute.

## Findings

| source | as written | input that shows it | evidently intended | confidence | as-written member | corrected member |
|---|---|---|---|---|---|---|
| app/src/main/java/com/cs301/chessapp/gamestate/pieces/Bishop.java:75 | the loop starts at `i = 0`, so the first square examined is the bishop's own; it holds the bishop, so the friendly-piece `break` ends the scan before any move is recorded | `getMoves(3, 3, board)` for a bishop alone on the board at (3, 3) returns an empty list | the scan starts at distance 1 and the bishop alone on (3, 3) has 13 moves (4 up-right, 3 on each other diagonal) | not executed; high: every call with the bishop on its own square returns no move | Pieces.FriendlyOriginNoMoves | BishopRays.LoneBishopAtCenter |
| app/src/main/java/com/cs301/chessapp/gamestate/pieces/Bishop.java:89 | each of the four `break` statements (lines 89, 111, 133, 155) leaves the whole `for` loop, so the first occupied square on any diagonal ends the scan of all four | (3, 3) empty, one friendly piece on (4, 4), nothing else: the result is four moves from (3, 3) to (3, 3) and nothing else | only the up-right diagonal is blocked; the other three diagonals run to the edge, giving 9 moves | not executed; high: the comments say "any number of squares diagonally", blocked only by pieces in the path | Pieces.ScanExactly | BishopRays.BlockerEndsAllDiagonals |

The corrected members are proved about `BishopRays.IntendedMoves`. That function walks each diagonal separately from distance 1, and
`BishopRays.IntendedExactly` and `BishopRays.IntendedDestinations` state its
properties. `Pieces.Bishop.GetMoves` is kept as the code is written, so its
contract describes what the game actually computes.
