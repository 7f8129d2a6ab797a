/** The bishop's moves as its documentation describes them: each diagonal is
    walked on its own from distance 1, and stops at the first occupied square,
    taking it when it holds a piece of the other player. This is the
    corrected definition that the discrepancy logged under Findings in
    README.md is measured against. */
module BishopRays {
  import opened Board
  import opened Pieces

  /** The steps along diagonal d from distance i on, up to the first
      occupied square; that square is included when it holds a piece of
      another player. */
  function Ray(x: int, y: int, board: array2<Square>, player: int, d: nat, i: nat): seq<Step>
    requires IsBoard(board) && d < 4 && i <= Size
    reads board
    decreases Size - i
  {
    if i == Size then []
    else
      var s := Step(i, d);
      if !OnBoardStep(x, y, s) then Ray(x, y, board, player, d, i + 1)
      else if At(x, y, board, s).None? then [s] + Ray(x, y, board, player, d, i + 1)
      else if At(x, y, board, s).value != player then [s]
      else []
  }

  /** The four diagonals, each from distance 1, in the order up-right,
      up-left, down-right, down-left. */
  function IntendedSteps(x: int, y: int, board: array2<Square>, player: int): seq<Step>
    requires IsBoard(board)
    reads board
  {
    Ray(x, y, board, player, 0, 1) + Ray(x, y, board, player, 1, 1)
      + Ray(x, y, board, player, 2, 1) + Ray(x, y, board, player, 3, 1)
  }

  function IntendedMoves(x: int, y: int, board: array2<Square>, player: int): seq<PieceMove>
    requires IsBoard(board)
    reads board
  {
    Moves(x, y, IntendedSteps(x, y, board, player))
  }

  /** Every on-board square along diagonal d at distances lo .. hi - 1 is empty. */
  ghost predicate RayClear(x: int, y: int, board: array2<Square>, d: nat, lo: nat, hi: nat)
    requires IsBoard(board)
    reads board
  {
    forall j: nat :: lo <= j < hi && OnBoardStep(x, y, Step(j, d)) ==> At(x, y, board, Step(j, d)).None?
  }

  /** A diagonal records step s exactly when s lies on it at distance i or
      more, its square is on the board and not friendly, and every on-board
      square between distance i and s is empty. */
  lemma {:induction false} RayExactly(x: int, y: int, board: array2<Square>, player: int, d: nat, i: nat, s: Step)
    requires IsBoard(board) && d < 4 && i <= Size
    ensures s in Ray(x, y, board, player, d, i) <==>
      s.diag == d && i <= s.dist < Size && OnBoardStep(x, y, s) && At(x, y, board, s) != Some(player)
      && RayClear(x, y, board, d, i, s.dist)
    decreases Size - i
  {
    if i < Size {
      RayExactly(x, y, board, player, d, i + 1, s);
    }
  }

  /** The corrected scan records step s exactly when s is at distance 1 .. 7
      on one of the four diagonals, its square is on the board and does not
      hold a piece of the bishop's player, and the squares between the
      bishop and s on that diagonal are empty. Squares on other diagonals
      play no part. */
  lemma IntendedExactly(x: int, y: int, board: array2<Square>, player: int, s: Step)
    requires IsBoard(board)
    ensures s in IntendedSteps(x, y, board, player) <==>
      Proper(s) && 1 <= s.dist && OnBoardStep(x, y, s) && At(x, y, board, s) != Some(player)
      && RayClear(x, y, board, s.diag, 1, s.dist)
  {
    RayExactly(x, y, board, player, 0, 1, s);
    RayExactly(x, y, board, player, 1, 1, s);
    RayExactly(x, y, board, player, 2, 1, s);
    RayExactly(x, y, board, player, 3, 1, s);
  }

  /** Every corrected move leaves the bishop's square for another square on
      a diagonal through it, on the board, not held by a friendly piece. */
  lemma IntendedDestinations(x: int, y: int, board: array2<Square>, player: int)
    requires IsBoard(board)
    ensures forall m :: m in IntendedMoves(x, y, board, player) ==>
      m.fromX == x && m.fromY == y && m.toX != x && m.toY != y
      && IsValid(m.toX, m.toY) && OnDiagonal(x, y, m.toX, m.toY)
      && board[m.toX, m.toY] != Some(player)
  {
    var ss := IntendedSteps(x, y, board, player);
    forall j | 0 <= j < |ss|
      ensures 1 <= ss[j].dist && OnBoardStep(x, y, ss[j]) && At(x, y, board, ss[j]) != Some(player)
      ensures OnDiagonal(x, y, TargetX(x, ss[j]), TargetY(y, ss[j]))
    {
      IntendedExactly(x, y, board, player, ss[j]);
    }
  }

  /** The number of squares along diagonal d from an on-board (x, y) to the edge. */
  function Reach(x: int, y: int, d: nat): int
  {
    var rx := if Rightward(d) then Size - 1 - x else x;
    var ry := if Upward(d) then Size - 1 - y else y;
    if rx < ry then rx else ry
  }

  lemma ReachExact(x: int, y: int, d: nat, j: nat)
    requires IsValid(x, y)
    ensures 0 <= Reach(x, y, d) < Size
    ensures OnBoardStep(x, y, Step(j, d)) <==> j <= Reach(x, y, d)
  {
  }

  /** A diagonal whose squares from distance i on are all empty runs to the edge. */
  lemma {:induction false} RayLengthClear(x: int, y: int, board: array2<Square>, player: int, d: nat, i: nat)
    requires IsBoard(board) && IsValid(x, y) && d < 4 && i <= Size
    requires RayClear(x, y, board, d, i, Size)
    ensures |Ray(x, y, board, player, d, i)| == if i <= Reach(x, y, d) then Reach(x, y, d) - i + 1 else 0
    decreases Size - i
  {
    ReachExact(x, y, d, i);
    if i < Size {
      RayLengthClear(x, y, board, player, d, i + 1);
    }
  }

  /** The bishop of `player` is the only piece on the board, on (x, y). */
  ghost predicate Alone(x: int, y: int, board: array2<Square>, player: int)
    requires IsBoard(board)
    reads board
  {
    IsValid(x, y) && board[x, y] == Some(player)
    && forall c, r :: IsValid(c, r) && (c != x || r != y) ==> board[c, r].None?
  }

  /** A bishop alone on the board: the code as written returns no move at
      all, while the corrected scan reaches the edge along all four
      diagonals. */
  lemma LoneBishop(x: int, y: int, board: array2<Square>, player: int)
    requires IsBoard(board) && Alone(x, y, board, player)
    ensures Scan(x, y, board, player) == []
    ensures |IntendedMoves(x, y, board, player)|
      == Reach(x, y, 0) + Reach(x, y, 1) + Reach(x, y, 2) + Reach(x, y, 3)
  {
    FriendlyOriginNoMoves(x, y, board, player);
    forall d: nat | d < 4 ensures RayClear(x, y, board, d, 1, Size) {
      forall j: nat | 1 <= j < Size && OnBoardStep(x, y, Step(j, d))
        ensures At(x, y, board, Step(j, d)).None?
      {
        assert TargetX(x, Step(j, d)) != x;
      }
    }
    RayLengthClear(x, y, board, player, 0, 1);
    RayLengthClear(x, y, board, player, 1, 1);
    RayLengthClear(x, y, board, player, 2, 1);
    RayLengthClear(x, y, board, player, 3, 1);
    ReachExact(x, y, 0, 0);
    ReachExact(x, y, 1, 0);
    ReachExact(x, y, 2, 0);
    ReachExact(x, y, 3, 0);
  }

  /** The bishop alone on (3, 3): getMoves returns nothing, where 13
      squares are reachable (4 up-right, 3 on each other diagonal). */
  lemma LoneBishopAtCenter(board: array2<Square>, player: int)
    requires IsBoard(board) && Alone(3, 3, board, player)
    ensures Scan(3, 3, board, player) == []
    ensures |IntendedMoves(3, 3, board, player)| == 13
  {
    LoneBishop(3, 3, board, player);
  }

  /** The bishop's square (3, 3) empty and a single friendly piece on
      (4, 4): the code as written stops at that piece and returns only the
      four zero-length moves, so the other three diagonals are never
      scanned; the corrected scan blocks only the up-right diagonal and
      finds 9 moves on the other three. */
  lemma BlockerEndsAllDiagonals(board: array2<Square>, player: int)
    requires IsBoard(board) && board[3, 3].None? && board[4, 4] == Some(player)
    requires forall c, r :: IsValid(c, r) && (c != 4 || r != 4) ==> board[c, r].None?
    ensures Scan(3, 3, board, player) == [PieceMove(3, 3, 3, 3), PieceMove(3, 3, 3, 3),
                                          PieceMove(3, 3, 3, 3), PieceMove(3, 3, 3, 3)]
    ensures Ray(3, 3, board, player, 0, 1) == []
    ensures |IntendedMoves(3, 3, board, player)| == 9
  {
    var origin := [Step(0, 0), Step(0, 1), Step(0, 2), Step(0, 3)];
    EmptyOriginRun(3, 3, board, player);
    RunNext(3, 3, board, player, origin, 1, 0);
    assert At(3, 3, board, Step(1, 0)) == Some(player);
    assert ScanSteps(3, 3, board, player) == origin;
    forall d: nat | 1 <= d < 4 ensures RayClear(3, 3, board, d, 1, Size) {
      forall j: nat | 1 <= j < Size && OnBoardStep(3, 3, Step(j, d))
        ensures At(3, 3, board, Step(j, d)).None?
      {
        assert TargetX(3, Step(j, d)) != 4 || TargetY(3, Step(j, d)) != 4;
      }
    }
    RayLengthClear(3, 3, board, player, 1, 1);
    RayLengthClear(3, 3, board, player, 2, 1);
    RayLengthClear(3, 3, board, player, 3, 1);
  }
}
