/**
 * The board and the pure rules of decision.py: `init_board`, `winnerdetect`
 * and `full`.  The 3x3 list of lists is flattened row by row, so the cell
 * at row r, column c has index 3*r + c, the numbering the programs use for
 * positions.
 */
module Rules {

  const Empty := 0
  const Human := 1
  const Machine := 2

  type Board = b: seq<int> | |b| == 9 witness [0, 0, 0, 0, 0, 0, 0, 0, 0]

  function Cell(row: int, col: int): int {
    3 * row + col
  }

  /** `init_board`: a board of nine empty cells. */
  function InitBoard(): (b: Board)
    ensures forall k :: 0 <= k < 9 ==> b[k] == Empty
  {
    [0, 0, 0, 0, 0, 0, 0, 0, 0]
  }

  /** `init_board` for the programs that mutate the board in place. */
  method NewBoard() returns (board: array<int>)
    ensures fresh(board) && board.Length == 9
    ensures board[..] == InitBoard()
  {
    board := new int[9](_ => Empty);
  }

  // ---------------------------------------------------------------------
  // winnerdetect

  predicate Row(b: Board, r: int, player: int)
    requires 0 <= r < 3
  {
    b[Cell(r, 0)] == player && b[Cell(r, 1)] == player && b[Cell(r, 2)] == player
  }

  predicate Column(b: Board, c: int, player: int)
    requires 0 <= c < 3
  {
    b[Cell(0, c)] == player && b[Cell(1, c)] == player && b[Cell(2, c)] == player
  }

  /** (0,0) (1,1) (2,2) */
  predicate MainDiagonal(b: Board, player: int) {
    b[Cell(0, 0)] == player && b[Cell(1, 1)] == player && b[Cell(2, 2)] == player
  }

  /** (0,2) (1,1) (2,0) */
  predicate AntiDiagonal(b: Board, player: int) {
    b[Cell(0, 2)] == player && b[Cell(1, 1)] == player && b[Cell(2, 0)] == player
  }

  /** `winnerdetect`: the rows, then the columns, then the two diagonals. */
  function WinnerDetect(b: Board, player: int): bool {
    Row(b, 0, player) || Row(b, 1, player) || Row(b, 2, player)
    || Column(b, 0, player) || Column(b, 1, player) || Column(b, 2, player)
    || MainDiagonal(b, player)
    || AntiDiagonal(b, player)
  }

  predicate OnGrid(row: int, col: int) {
    0 <= row < 3 && 0 <= col < 3
  }

  /**
   * Three cells in a straight line: start at (r, c) and take two unit steps
   * in direction (dr, dc), horizontally, vertically or diagonally, without
   * leaving the grid, every cell holding `player`.
   */
  ghost predicate Segment(b: Board, r: int, c: int, dr: int, dc: int, player: int) {
    && -1 <= dr <= 1 && -1 <= dc <= 1 && (dr != 0 || dc != 0)
    && OnGrid(r, c) && OnGrid(r + 2 * dr, c + 2 * dc)
    && b[Cell(r, c)] == player
    && b[Cell(r + dr, c + dc)] == player
    && b[Cell(r + 2 * dr, c + 2 * dc)] == player
  }

  /** Three in a row, defined geometrically rather than by listing the eight lines. */
  ghost predicate ThreeInARow(b: Board, player: int) {
    exists r, c, dr, dc :: Segment(b, r, c, dr, dc, player)
  }

  /** `winnerdetect` accepts exactly the boards with three of `player` in a line. */
  lemma {:induction false} WinnerDetectIsThreeInARow(b: Board, player: int)
    ensures WinnerDetect(b, player) <==> ThreeInARow(b, player)
  {
    if WinnerDetect(b, player) {
      if Row(b, 0, player) {
        assert Segment(b, 0, 0, 0, 1, player);
      } else if Row(b, 1, player) {
        assert Segment(b, 1, 0, 0, 1, player);
      } else if Row(b, 2, player) {
        assert Segment(b, 2, 0, 0, 1, player);
      } else if Column(b, 0, player) {
        assert Segment(b, 0, 0, 1, 0, player);
      } else if Column(b, 1, player) {
        assert Segment(b, 0, 1, 1, 0, player);
      } else if Column(b, 2, player) {
        assert Segment(b, 0, 2, 1, 0, player);
      } else if MainDiagonal(b, player) {
        assert Segment(b, 0, 0, 1, 1, player);
      } else {
        assert Segment(b, 0, 2, 1, -1, player);
      }
    }
    if ThreeInARow(b, player) {
      var r, c, dr, dc :| Segment(b, r, c, dr, dc, player);
      SegmentIsALine(b, r, c, dr, dc, player);
    }
  }

  lemma SegmentIsALine(b: Board, r: int, c: int, dr: int, dc: int, player: int)
    requires Segment(b, r, c, dr, dc, player)
    ensures WinnerDetect(b, player)
  {
    if dr == 0 {
      // c, c + dc, c + 2*dc is 0, 1, 2 in some order
      assert Row(b, r, player);
    } else if dc == 0 {
      assert Column(b, c, player);
    } else if dr == dc {
      assert MainDiagonal(b, player);
    } else {
      assert AntiDiagonal(b, player);
    }
  }

  /** The docstring example: the top row is all human. */
  lemma WinnerDetectExample()
    ensures WinnerDetect([1, 1, 1, 0, 2, 0, 2, 0, 2], Human)
    ensures !WinnerDetect([1, 1, 1, 0, 2, 0, 2, 0, 2], Machine)
  {
  }

  // ---------------------------------------------------------------------
  // full

  predicate RowHasEmpty(b: Board, r: int)
    requires 0 <= r < 3
  {
    b[Cell(r, 0)] == Empty || b[Cell(r, 1)] == Empty || b[Cell(r, 2)] == Empty
  }

  /** `full`: no row has an empty cell. */
  function Full(b: Board): (full: bool)
    ensures full <==> forall k :: 0 <= k < 9 ==> b[k] != Empty
  {
    RowsCoverTheBoard(b);
    !RowHasEmpty(b, 0) && !RowHasEmpty(b, 1) && !RowHasEmpty(b, 2)
  }

  /** The three rows of `full` together hold every cell. */
  lemma RowsCoverTheBoard(b: Board)
    ensures (forall k :: 0 <= k < 9 ==> b[k] != Empty)
      <==> !RowHasEmpty(b, 0) && !RowHasEmpty(b, 1) && !RowHasEmpty(b, 2)
  {
    if !RowHasEmpty(b, 0) && !RowHasEmpty(b, 1) && !RowHasEmpty(b, 2) {
      forall k | 0 <= k < 9
        ensures b[k] != Empty
      {
        assert k == Cell(k / 3, k % 3) && 0 <= k / 3 < 3;
      }
    }
  }

  /** The docstring examples of `full`. */
  lemma FullExamples()
    ensures Full([1, 2, 1, 2, 1, 2, 2, 1, 2])
    ensures !Full([1, 2, 0, 2, 1, 2, 2, 1, 2])
  {
  }

  /** The number of empty cells; every move fills one, which bounds the search. */
  function EmptyCount(s: seq<int>): nat {
    if s == [] then 0 else (if s[0] == Empty then 1 else 0) + EmptyCount(s[1..])
  }

  lemma {:induction false} FillOneCell(s: seq<int>, i: int, mark: int)
    requires 0 <= i < |s| && s[i] == Empty && mark != Empty
    ensures EmptyCount(s[i := mark]) == EmptyCount(s) - 1
  {
    if i > 0 {
      assert s[i := mark][1..] == s[1..][i - 1 := mark];
      FillOneCell(s[1..], i - 1, mark);
    }
  }

  lemma {:induction false} NoEmptyCell(s: seq<int>)
    ensures EmptyCount(s) == 0 <==> forall k :: 0 <= k < |s| ==> s[k] != Empty
  {
    if s != [] {
      NoEmptyCell(s[1..]);
      assert forall k :: 1 <= k < |s| ==> s[k] == s[1..][k - 1];
    }
  }

  /** A board is full exactly when it has no empty cell left to fill. */
  lemma FullIffNoEmptyCount(b: Board)
    ensures Full(b) <==> EmptyCount(b) == 0
  {
    NoEmptyCell(b);
  }
}
