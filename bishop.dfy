/** The bishop's move generator as the code has it: one counted loop over the
    distance i = 0 .. 7 that looks at the four diagonals in a fixed order and
    leaves the whole loop at the first occupied square it meets. */
module Pieces {
  import opened Board

  // ---------------------------------------------------------------------
  // The squares the scan examines, in the order it examines them

  /** Distance i along diagonal d. Diagonals are numbered in the order the
      loop body visits them: 0 up-right (+,+), 1 up-left (-,+),
      2 down-right (+,-), 3 down-left (-,-). */
  datatype Step = Step(dist: nat, diag: nat)

  /** A step the loop can reach: distance 0 .. 7, one of the four diagonals. */
  predicate Proper(s: Step)
  {
    s.dist < Size && s.diag < 4
  }

  /** Position of a step in the scan: the loop visits steps in increasing rank. */
  function Rank(s: Step): int
  {
    4 * s.dist + s.diag
  }

  /** Diagonal d runs towards larger columns. */
  predicate Rightward(d: nat) { d == 0 || d == 2 }

  /** Diagonal d runs towards larger rows. */
  predicate Upward(d: nat) { d < 2 }

  function TargetX(x: int, s: Step): int
  {
    if Rightward(s.diag) then x + s.dist else x - s.dist
  }

  function TargetY(y: int, s: Step): int
  {
    if Upward(s.diag) then y + s.dist else y - s.dist
  }

  /** The square of step s lies on the board. */
  predicate OnBoardStep(x: int, y: int, s: Step)
  {
    IsValid(TargetX(x, s), TargetY(y, s))
  }

  /** The contents of the square of step s. */
  function At(x: int, y: int, board: array2<Square>, s: Step): Square
    requires IsBoard(board) && OnBoardStep(x, y, s)
    reads board
  {
    board[TargetX(x, s), TargetY(y, s)]
  }

  /** The move the scan records at step s. */
  function StepMove(x: int, y: int, s: Step): PieceMove
  {
    PieceMove(x, y, TargetX(x, s), TargetY(y, s))
  }

  // ---------------------------------------------------------------------
  // The reference scan

  /** The scan from step (i, d) on, having recorded `done` so far: an
      off-board step is skipped, an empty square is recorded and the scan
      goes on, a square of another player is recorded and the scan stops, a
      square of the bishop's player stops the scan with nothing recorded.
      The result is every step recorded, in order. */
  function Run(x: int, y: int, board: array2<Square>, player: int, done: seq<Step>, i: nat, d: nat): seq<Step>
    requires IsBoard(board) && i <= Size && d < 4
    reads board
    decreases Size - i, 4 - d, 1
  {
    if i == Size then done
    else
      var s := Step(i, d);
      if !OnBoardStep(x, y, s) then Continue(x, y, board, player, done, i, d)
      else if At(x, y, board, s).None? then Continue(x, y, board, player, done + [s], i, d)
      else if At(x, y, board, s).value != player then done + [s]
      else done
  }

  /** The scan from the step after (i, d) on. */
  function Continue(x: int, y: int, board: array2<Square>, player: int, done: seq<Step>, i: nat, d: nat): seq<Step>
    requires IsBoard(board) && i < Size && d < 4
    reads board
    decreases Size - i, 4 - d, 0
  {
    if d < 3 then Run(x, y, board, player, done, i, d + 1)
    else Run(x, y, board, player, done, i + 1, 0)
  }

  /** One step of the scan, in the terms the loop body uses: the square
      (tx, ty) at distance i along diagonal d. */
  lemma RunStep(x: int, y: int, board: array2<Square>, player: int, done: seq<Step>, i: nat, d: nat, tx: int, ty: int)
    requires IsBoard(board) && i < Size && d < 4
    requires tx == (if Rightward(d) then x + i else x - i)
    requires ty == (if Upward(d) then y + i else y - i)
    ensures StepMove(x, y, Step(i, d)) == PieceMove(x, y, tx, ty)
    ensures !IsValid(tx, ty) ==>
      Run(x, y, board, player, done, i, d) == Continue(x, y, board, player, done, i, d)
    ensures IsValid(tx, ty) && board[tx, ty].None? ==>
      Run(x, y, board, player, done, i, d) == Continue(x, y, board, player, done + [Step(i, d)], i, d)
    ensures IsValid(tx, ty) && board[tx, ty].Some? ==>
      Run(x, y, board, player, done, i, d)
        == if board[tx, ty].value != player then done + [Step(i, d)] else done
  {
  }

  /** The steps getMoves records for the bishop of `player` on (x, y). */
  function ScanSteps(x: int, y: int, board: array2<Square>, player: int): seq<Step>
    requires IsBoard(board)
    reads board
  {
    Run(x, y, board, player, [], 0, 0)
  }

  /** The moves that a list of steps stands for. */
  function Moves(x: int, y: int, ss: seq<Step>): seq<PieceMove>
  {
    seq(|ss|, j requires 0 <= j < |ss| => StepMove(x, y, ss[j]))
  }

  lemma MovesSnoc(x: int, y: int, ss: seq<Step>, s: Step)
    ensures Moves(x, y, ss + [s]) == Moves(x, y, ss) + [StepMove(x, y, s)]
  {
  }

  /** What getMoves returns for the bishop of `player` on (x, y). */
  function Scan(x: int, y: int, board: array2<Square>, player: int): seq<PieceMove>
    requires IsBoard(board)
    reads board
  {
    Moves(x, y, ScanSteps(x, y, board, player))
  }

  // ---------------------------------------------------------------------
  // Properties of the scan

  /** Every on-board square the scan examines from rank lo up to, but not
      including, step s is empty. */
  ghost predicate ClearBetween(x: int, y: int, board: array2<Square>, lo: int, s: Step)
    requires IsBoard(board)
    reads board
  {
    forall t :: Proper(t) && lo <= Rank(t) < Rank(s) && OnBoardStep(x, y, t) ==> At(x, y, board, t).None?
  }

  /** A scan that starts at rank lo records step s. */
  ghost predicate Reached(x: int, y: int, board: array2<Square>, player: int, lo: int, s: Step)
    requires IsBoard(board)
    reads board
  {
    Proper(s) && lo <= Rank(s) && OnBoardStep(x, y, s) && At(x, y, board, s) != Some(player)
      && ClearBetween(x, y, board, lo, s)
  }

  lemma RankInjective(s: Step, t: Step)
    requires Proper(s) && Proper(t) && Rank(s) == Rank(t)
    ensures s == t
  {
  }

  /** Step rank order is distance first, then diagonal. */
  lemma RankOrder(s: Step, t: Step)
    requires Proper(s) && Proper(t) && Rank(s) < Rank(t)
    ensures s.dist < t.dist || (s.dist == t.dist && s.diag < t.diag)
  {
  }

  /** The step the scan examines after (i, d). */
  function NextStep(i: nat, d: nat): Step
  {
    if d < 3 then Step(i, d + 1) else Step(i + 1, 0)
  }

  /** Run, unfolded by one step. */
  lemma RunNext(x: int, y: int, board: array2<Square>, player: int, done: seq<Step>, i: nat, d: nat)
    requires IsBoard(board) && i < Size && d < 4
    ensures var cur := Step(i, d); var next := NextStep(i, d);
      Rank(next) == Rank(cur) + 1 && next.dist <= Size && next.diag < 4
      && (next.dist == Size ==> next.diag == 0)
      && (!OnBoardStep(x, y, cur) ==>
            Run(x, y, board, player, done, i, d) == Run(x, y, board, player, done, next.dist, next.diag))
      && (OnBoardStep(x, y, cur) && At(x, y, board, cur).None? ==>
            Run(x, y, board, player, done, i, d) == Run(x, y, board, player, done + [cur], next.dist, next.diag))
      && (OnBoardStep(x, y, cur) && At(x, y, board, cur).Some? ==>
            Run(x, y, board, player, done, i, d)
              == if At(x, y, board, cur).value != player then done + [cur] else done)
  {
  }

  /** Splitting off the first square of a clear stretch. */
  lemma ClearShift(x: int, y: int, board: array2<Square>, cur: Step, s: Step)
    requires IsBoard(board) && Proper(cur)
    ensures ClearBetween(x, y, board, Rank(cur), s) <==>
      ((Rank(cur) < Rank(s) && OnBoardStep(x, y, cur)) ==> At(x, y, board, cur).None?)
      && ClearBetween(x, y, board, Rank(cur) + 1, s)
  {
    forall t | Proper(t) && Rank(t) == Rank(cur) ensures t == cur {
      RankInjective(t, cur);
    }
  }

  /** The scan from (i, d) on records exactly what it had recorded and
      every step it reaches. */
  lemma {:induction false} RunExactly(x: int, y: int, board: array2<Square>, player: int,
                                      done: seq<Step>, i: nat, d: nat, s: Step)
    requires IsBoard(board) && i <= Size && d < 4
    ensures s in Run(x, y, board, player, done, i, d)
      <==> s in done || Reached(x, y, board, player, Rank(Step(i, d)), s)
    decreases Size - i, 4 - d
  {
    var cur := Step(i, d);
    if i < Size {
      var next := NextStep(i, d);
      RunNext(x, y, board, player, done, i, d);
      ClearShift(x, y, board, cur, s);
      if Proper(s) && Rank(s) == Rank(cur) {
        RankInjective(s, cur);
      }
      if !OnBoardStep(x, y, cur) {
        RunExactly(x, y, board, player, done, next.dist, next.diag, s);
      } else if At(x, y, board, cur).None? {
        RunExactly(x, y, board, player, done + [cur], next.dist, next.diag, s);
      }
    }
  }

  /** The scan records step s if and only if s is one of the 32 steps, its
      square is on the board and does not hold a piece of the bishop's
      player, and every on-board square the scan examines before it, on
      any diagonal, is empty. */
  lemma ScanExactly(x: int, y: int, board: array2<Square>, player: int, s: Step)
    requires IsBoard(board)
    ensures s in ScanSteps(x, y, board, player) <==>
      Proper(s) && OnBoardStep(x, y, s) && At(x, y, board, s) != Some(player)
      && forall t :: Proper(t) && Rank(t) < Rank(s) && OnBoardStep(x, y, t) ==> At(x, y, board, t).None?
  {
    RunExactly(x, y, board, player, [], 0, 0, s);
  }

  /** Ranks strictly increase along a list of steps. */
  ghost predicate Increasing(ss: seq<Step>)
  {
    forall a, b :: 0 <= a < b < |ss| ==> Rank(ss[a]) < Rank(ss[b])
  }

  lemma {:induction false} RunOrdered(x: int, y: int, board: array2<Square>, player: int,
                                      done: seq<Step>, i: nat, d: nat)
    requires IsBoard(board) && i <= Size && d < 4 && (i == Size ==> d == 0)
    requires Increasing(done)
    requires forall j :: 0 <= j < |done| ==> Proper(done[j]) && Rank(done[j]) < Rank(Step(i, d))
    ensures var ss := Run(x, y, board, player, done, i, d);
      Increasing(ss) && (forall j :: 0 <= j < |ss| ==> Proper(ss[j]))
      && |ss| <= |done| + 4 * Size - Rank(Step(i, d))
    decreases Size - i, 4 - d
  {
    var cur := Step(i, d);
    if i < Size {
      var next := NextStep(i, d);
      RunNext(x, y, board, player, done, i, d);
      var acc := if OnBoardStep(x, y, cur) && At(x, y, board, cur).None? then done + [cur] else done;
      RunOrdered(x, y, board, player, acc, next.dist, next.diag);
    }
  }

  /** Moves come in scan order: the j-th move is the one of the j-th
      recorded step, and the steps' ranks strictly increase, so distances
      never decrease and within one distance the diagonals come up-right,
      up-left, down-right, down-left. There are at most 32 moves. */
  lemma ScanOrder(x: int, y: int, board: array2<Square>, player: int)
    requires IsBoard(board)
    ensures var ss := ScanSteps(x, y, board, player); var ms := Scan(x, y, board, player);
      |ms| == |ss| <= 32
      && (forall j :: 0 <= j < |ss| ==> Proper(ss[j]) && ms[j] == StepMove(x, y, ss[j]))
      && (forall a, b :: 0 <= a < b < |ss| ==>
            ss[a].dist < ss[b].dist || (ss[a].dist == ss[b].dist && ss[a].diag < ss[b].diag))
  {
    var ss := ScanSteps(x, y, board, player);
    RunOrdered(x, y, board, player, [], 0, 0);
    forall a, b | 0 <= a < b < |ss|
      ensures ss[a].dist < ss[b].dist || (ss[a].dist == ss[b].dist && ss[a].diag < ss[b].diag)
    {
      RankOrder(ss[a], ss[b]);
    }
  }

  /** Every returned move starts on the bishop's square and ends on the
      board, on a diagonal through it, less than 8 squares away. */
  lemma ScanDestinations(x: int, y: int, board: array2<Square>, player: int)
    requires IsBoard(board)
    ensures forall m :: m in Scan(x, y, board, player) ==>
      m.fromX == x && m.fromY == y && IsValid(m.toX, m.toY) && OnDiagonal(x, y, m.toX, m.toY)
  {
    var ss := ScanSteps(x, y, board, player);
    forall j | 0 <= j < |ss|
      ensures OnBoardStep(x, y, ss[j]) && OnDiagonal(x, y, TargetX(x, ss[j]), TargetY(y, ss[j]))
    {
      ScanExactly(x, y, board, player, ss[j]);
    }
  }

  /** No returned move lands on a square holding a piece of the bishop's own player. */
  lemma ScanNoSelfCapture(x: int, y: int, board: array2<Square>, player: int)
    requires IsBoard(board)
    ensures forall m :: m in Scan(x, y, board, player) ==>
      IsValid(m.toX, m.toY) && board[m.toX, m.toY] != Some(player)
  {
    var ss := ScanSteps(x, y, board, player);
    forall j | 0 <= j < |ss|
      ensures OnBoardStep(x, y, ss[j]) && At(x, y, board, ss[j]) != Some(player)
    {
      ScanExactly(x, y, board, player, ss[j]);
    }
  }

  /** Every returned move except the last lands on an empty square, so at
      most one returned square is occupied, and then it is the last. */
  lemma ScanOnlyLastOccupied(x: int, y: int, board: array2<Square>, player: int)
    requires IsBoard(board)
    ensures var ms := Scan(x, y, board, player);
      forall j :: 0 <= j < |ms| - 1 ==> IsValid(ms[j].toX, ms[j].toY) && board[ms[j].toX, ms[j].toY].None?
  {
    var ss := ScanSteps(x, y, board, player);
    RunOrdered(x, y, board, player, [], 0, 0);
    forall j | 0 <= j < |ss| - 1
      ensures OnBoardStep(x, y, ss[j]) && At(x, y, board, ss[j]).None?
    {
      ScanExactly(x, y, board, player, ss[j]);
      ScanExactly(x, y, board, player, ss[|ss| - 1]);
    }
  }

  /** The scan starts on the bishop's own square: when that square holds a
      piece of the bishop's player (normally the bishop itself) the result
      is empty. */
  lemma FriendlyOriginNoMoves(x: int, y: int, board: array2<Square>, player: int)
    requires IsBoard(board) && IsValid(x, y) && board[x, y] == Some(player)
    ensures Scan(x, y, board, player) == []
  {
    RunStep(x, y, board, player, [], 0, 0, x, y);
  }

  /** When the bishop's own square holds a piece of another player the
      result is the single zero-length move onto it. */
  lemma EnemyOriginOneMove(x: int, y: int, board: array2<Square>, player: int)
    requires IsBoard(board) && IsValid(x, y) && board[x, y].Some? && board[x, y].value != player
    ensures Scan(x, y, board, player) == [PieceMove(x, y, x, y)]
  {
    RunStep(x, y, board, player, [], 0, 0, x, y);
  }

  /** The scan only ever appends to what it has recorded. */
  lemma {:induction false} RunExtends(x: int, y: int, board: array2<Square>, player: int,
                                      done: seq<Step>, i: nat, d: nat)
    requires IsBoard(board) && i <= Size && d < 4
    ensures var ss := Run(x, y, board, player, done, i, d);
      |done| <= |ss| && ss[..|done|] == done
    decreases Size - i, 4 - d
  {
    var cur := Step(i, d);
    if i < Size {
      var next := NextStep(i, d);
      RunNext(x, y, board, player, done, i, d);
      if !OnBoardStep(x, y, cur) {
        RunExtends(x, y, board, player, done, next.dist, next.diag);
      } else if At(x, y, board, cur).None? {
        var acc := done + [cur];
        RunExtends(x, y, board, player, acc, next.dist, next.diag);
        var ss := Run(x, y, board, player, acc, next.dist, next.diag);
        assert ss[..|done|] == ss[..|acc|][..|done|];
      }
    }
  }

  /** With the bishop's own square empty, the four zero-length steps onto
      it are recorded and the scan goes on at distance 1. */
  lemma EmptyOriginRun(x: int, y: int, board: array2<Square>, player: int)
    requires IsBoard(board) && IsValid(x, y) && board[x, y].None?
    ensures ScanSteps(x, y, board, player)
      == Run(x, y, board, player, [Step(0, 0), Step(0, 1), Step(0, 2), Step(0, 3)], 1, 0)
  {
    var origin := [Step(0, 0), Step(0, 1), Step(0, 2), Step(0, 3)];
    forall d | 0 <= d < 4 ensures OnBoardStep(x, y, Step(0, d)) && At(x, y, board, Step(0, d)).None? {
      assert TargetX(x, Step(0, d)) == x && TargetY(y, Step(0, d)) == y;
    }
    RunEmpty(x, y, board, player, [], 0, 0);
    RunEmpty(x, y, board, player, origin[..1], 0, 1);
    RunEmpty(x, y, board, player, origin[..2], 0, 2);
    RunEmpty(x, y, board, player, origin[..3], 0, 3);
    assert [] + [Step(0, 0)] == origin[..1];
    assert origin[..1] + [Step(0, 1)] == origin[..2];
    assert origin[..2] + [Step(0, 2)] == origin[..3];
    assert origin[..3] + [Step(0, 3)] == origin;
  }

  /** With the bishop's own square empty, the result starts with four
      zero-length moves onto it, one per diagonal. */
  lemma EmptyOriginFourMoves(x: int, y: int, board: array2<Square>, player: int)
    requires IsBoard(board) && IsValid(x, y) && board[x, y].None?
    ensures var ms := Scan(x, y, board, player);
      |ms| >= 4 && forall j :: 0 <= j < 4 ==> ms[j] == PieceMove(x, y, x, y)
  {
    var origin := [Step(0, 0), Step(0, 1), Step(0, 2), Step(0, 3)];
    EmptyOriginRun(x, y, board, player);
    RunExtends(x, y, board, player, origin, 1, 0);
    var ss := ScanSteps(x, y, board, player);
    forall j | 0 <= j < 4 ensures StepMove(x, y, ss[j]) == PieceMove(x, y, x, y) {
      assert ss[j] == ss[..4][j] == origin[j];
    }
  }

  lemma RunEmpty(x: int, y: int, board: array2<Square>, player: int, done: seq<Step>, i: nat, d: nat)
    requires IsBoard(board) && i < Size && d < 4
    requires OnBoardStep(x, y, Step(i, d)) && At(x, y, board, Step(i, d)).None?
    ensures Run(x, y, board, player, done, i, d)
      == Run(x, y, board, player, done + [Step(i, d)], NextStep(i, d).dist, NextStep(i, d).diag)
  {
  }

  // ---------------------------------------------------------------------
  // The piece

  class Bishop {
    /** The player the piece belongs to. */
    var player: int
    /** Material value. */
    var value: int
    /** Type label. */
    var kind: string

    constructor (player: int)
      ensures this.player == player && value == 3 && kind == "Bishop"
    {
      this.player := player;
      value := 3;
      kind := "Bishop";
    }

    /** getMoves: reads the board only (there is no modifies clause) and
        returns a fresh list, the reference scan. */
    method GetMoves(x: int, y: int, board: array2<Square>) returns (valid: seq<PieceMove>)
      requires IsBoard(board)
      ensures valid == Scan(x, y, board, player)
    {
      valid := [];
      ghost var done: seq<Step> := [];
      var i := 0;
      while i < 8
        invariant 0 <= i <= 8
        invariant ScanSteps(x, y, board, player) == Run(x, y, board, player, done, i, 0)
        invariant valid == Moves(x, y, done)
      {
        // up-right
        RunStep(x, y, board, player, done, i, 0, x + i, y + i);
        if IsValid(x + i, y + i) {
          if board[x + i, y + i].Some? {
            if board[x + i, y + i].value != player {
              MovesSnoc(x, y, done, Step(i, 0));
              done := done + [Step(i, 0)];
              valid := valid + [PieceMove(x, y, x + i, y + i)];
            }
            break;
          } else {
            MovesSnoc(x, y, done, Step(i, 0));
            done := done + [Step(i, 0)];
            valid := valid + [PieceMove(x, y, x + i, y + i)];
          }
        }

        // up-left
        RunStep(x, y, board, player, done, i, 1, x - i, y + i);
        if IsValid(x - i, y + i) {
          if board[x - i, y + i].Some? {
            if board[x - i, y + i].value != player {
              MovesSnoc(x, y, done, Step(i, 1));
              done := done + [Step(i, 1)];
              valid := valid + [PieceMove(x, y, x - i, y + i)];
            }
            break;
          } else {
            MovesSnoc(x, y, done, Step(i, 1));
            done := done + [Step(i, 1)];
            valid := valid + [PieceMove(x, y, x - i, y + i)];
          }
        }

        // down-right
        RunStep(x, y, board, player, done, i, 2, x + i, y - i);
        if IsValid(x + i, y - i) {
          if board[x + i, y - i].Some? {
            if board[x + i, y - i].value != player {
              MovesSnoc(x, y, done, Step(i, 2));
              done := done + [Step(i, 2)];
              valid := valid + [PieceMove(x, y, x + i, y - i)];
            }
            break;
          } else {
            MovesSnoc(x, y, done, Step(i, 2));
            done := done + [Step(i, 2)];
            valid := valid + [PieceMove(x, y, x + i, y - i)];
          }
        }

        // down-left
        RunStep(x, y, board, player, done, i, 3, x - i, y - i);
        if IsValid(x - i, y - i) {
          if board[x - i, y - i].Some? {
            if board[x - i, y - i].value != player {
              MovesSnoc(x, y, done, Step(i, 3));
              done := done + [Step(i, 3)];
              valid := valid + [PieceMove(x, y, x - i, y - i)];
            }
            break;
          } else {
            MovesSnoc(x, y, done, Step(i, 3));
            done := done + [Step(i, 3)];
            valid := valid + [PieceMove(x, y, x - i, y - i)];
          }
        }

        i := i + 1;
      }
    }
  }
}
