/**
 * `minimax` and `computermove` of decision.py.  `Value` is the score the
 * recursive search computes, written as a pure function over the board;
 * the methods `Minimax` and `ComputerMove` mutate an array the way the
 * source mutates its list of lists, and are proved against it.
 */
module Search {
  import opened Wrappers
  import opened Rules

  /** Stand-ins for `-float('inf')` and `float('inf')`: every real score lies strictly between. */
  const Lowest := -2
  const Highest := 2

  function Max(a: int, b: int): int { if a >= b then a else b }
  function Min(a: int, b: int): int { if a <= b then a else b }

  /** The mark of the side to move: the machine maximises, the human minimises. */
  function Mover(maximizing: bool): int {
    if maximizing then Machine else Human
  }

  function Start(maximizing: bool): int {
    if maximizing then Lowest else Highest
  }

  function Combine(maximizing: bool, score: int, best: int): int {
    if maximizing then Max(score, best) else Min(score, best)
  }

  predicate Terminal(b: Board) {
    WinnerDetect(b, Machine) || WinnerDetect(b, Human) || Full(b)
  }

  /**
   * The score `minimax(chess, depth, is_maximizing)` returns: 1 when the
   * machine has a line, else -1 when the human has one, else 0 when the
   * board is full, else the best score over the empty cells for the side to
   * move.  It is always a real score, never one of the infinities.
   */
  function Value(b: Board, maximizing: bool): (score: int)
    ensures -1 <= score <= 1
    decreases EmptyCount(b), 1
  {
    if WinnerDetect(b, Machine) then 1
    else if WinnerDetect(b, Human) then -1
    else if Full(b) then 0
    else Scan(b, maximizing, 0, Start(maximizing))
  }

  /** The position after the side to move marks empty cell `k`. */
  function Child(b: Board, k: int, maximizing: bool): Board
    requires 0 <= k < 9
  {
    b[k := Mover(maximizing)]
  }

  /** The score of the position after the side to move marks cell `k`. */
  function ChildValue(b: Board, k: int, maximizing: bool): int
    requires 0 <= k < 9 && b[k] == Empty
    decreases EmptyCount(b), 0, 0
  {
    FillOneCell(b, k, Mover(maximizing));
    Value(Child(b, k, maximizing), !maximizing)
  }

  /** The `for i in range(9)` loop of `minimax` from cell `i` on, with running best `best`. */
  function Scan(b: Board, maximizing: bool, i: nat, best: int): (score: int)
    requires i <= 9
    requires best == Start(maximizing) || -1 <= best <= 1
    ensures -1 <= best <= 1 ==> -1 <= score <= 1
    ensures (exists k :: i <= k < 9 && b[k] == Empty) ==> -1 <= score <= 1
    decreases EmptyCount(b), 0, 10 - i
  {
    if i == 9 then best
    else if b[i] == Empty then
      Scan(b, maximizing, i + 1, Combine(maximizing, ChildValue(b, i, maximizing), best))
    else Scan(b, maximizing, i + 1, best)
  }

  /** `x` is at least as good as `y` for the side to move. */
  predicate Better(maximizing: bool, x: int, y: int) {
    if maximizing then x >= y else x <= y
  }

  /** `Scan` combines `best` with the values of the children at the empty cells from `i` on. */
  lemma {:induction false} ScanIsBestChild(b: Board, maximizing: bool, i: nat, best: int)
    requires i <= 9
    requires best == Start(maximizing) || -1 <= best <= 1
    ensures Better(maximizing, Scan(b, maximizing, i, best), best)
    ensures forall k :: i <= k < 9 && b[k] == Empty ==>
      Better(maximizing, Scan(b, maximizing, i, best), ChildValue(b, k, maximizing))
    ensures Scan(b, maximizing, i, best) == best
      || exists k :: i <= k < 9 && b[k] == Empty && Scan(b, maximizing, i, best) == ChildValue(b, k, maximizing)
    decreases 9 - i
  {
    if i < 9 {
      if b[i] == Empty {
        var next := Combine(maximizing, ChildValue(b, i, maximizing), best);
        assert Scan(b, maximizing, i, best) == Scan(b, maximizing, i + 1, next);
        ScanIsBestChild(b, maximizing, i + 1, next);
      } else {
        assert Scan(b, maximizing, i, best) == Scan(b, maximizing, i + 1, best);
        ScanIsBestChild(b, maximizing, i + 1, best);
      }
    }
  }

  /**
   * The minimax recurrence: at a position that is not over, the machine's
   * score is the greatest of its moves' scores and the human's the least,
   * and the score is attained by some move.
   */
  lemma ValueIsMinimax(b: Board, maximizing: bool)
    requires !Terminal(b)
    ensures forall k :: 0 <= k < 9 && b[k] == Empty ==> Better(maximizing, Value(b, maximizing), ChildValue(b, k, maximizing))
    ensures exists k :: 0 <= k < 9 && b[k] == Empty && Value(b, maximizing) == ChildValue(b, k, maximizing)
  {
    ScanIsBestChild(b, maximizing, 0, Start(maximizing));
  }

  /** The terminal tests come first and in the source's order: a machine line wins over a human line. */
  lemma TerminalScores(b: Board, maximizing: bool)
    ensures WinnerDetect(b, Machine) ==> Value(b, maximizing) == 1
    ensures !WinnerDetect(b, Machine) && WinnerDetect(b, Human) ==> Value(b, maximizing) == -1
    ensures !WinnerDetect(b, Machine) && !WinnerDetect(b, Human) && Full(b) ==> Value(b, maximizing) == 0
  {
  }

  /**
   * `minimax`: tentatively marks each empty cell, recurses, and puts the
   * cell back, so the board is as it was when the call returns.
   */
  method Minimax(board: array<int>, maximizing: bool) returns (score: int)
    requires board.Length == 9
    modifies board
    ensures board[..] == old(board[..])
    ensures score == Value(old(board[..]), maximizing)
    decreases EmptyCount(board[..])
  {
    if WinnerDetect(board[..], Machine) {
      return 1;
    }
    if WinnerDetect(board[..], Human) {
      return -1;
    }
    if Full(board[..]) {
      return 0;
    }
    ghost var b: Board := board[..];
    var best := Start(maximizing);
    for i := 0 to 9
      invariant board[..] == b
      invariant best == Start(maximizing) || -1 <= best <= 1
      invariant Scan(b, maximizing, i, best) == Value(b, maximizing)
    {
      if board[i] == Empty {
        board[i] := Mover(maximizing);
        FillOneCell(b, i, Mover(maximizing));
        var childScore := Minimax(board, !maximizing);
        board[i] := Empty;
        assert board[..] == b;
        best := Combine(maximizing, childScore, best);
      }
    }
    score := best;
  }

  // ---------------------------------------------------------------------
  // computermove

  /** The score `computermove` gives to placing the machine mark at empty cell `k`. */
  function MoveScore(b: Board, k: int): int
    requires 0 <= k < 9 && b[k] == Empty
  {
    ChildValue(b, k, true)
  }

  /**
   * The `for i in range(9)` loop of `computermove` from cell `i` on: a cell
   * replaces the current best only with a strictly greater score.
   */
  function RootScan(b: Board, i: nat, best: int, bestMove: Option<int>): (r: Option<int>)
    requires i <= 9
    ensures r.Some? ==> r == bestMove || (i <= r.value < 9 && b[r.value] == Empty)
    decreases 9 - i
  {
    if i == 9 then bestMove
    else if b[i] == Empty && MoveScore(b, i) > best then RootScan(b, i + 1, MoveScore(b, i), Some(i))
    else RootScan(b, i + 1, best, bestMove)
  }

  /** The cell `computermove` chooses, or None when there is no empty cell. */
  function BestMove(b: Board): (r: Option<int>)
    ensures r.Some? ==> 0 <= r.value < 9 && b[r.value] == Empty
  {
    RootScan(b, 0, Lowest, None)
  }

  /** What the scan has established after looking at the cells before `i`. */
  ghost predicate RootScanned(b: Board, i: nat, best: int, bestMove: Option<int>)
    requires i <= 9
  {
    match bestMove
    case None => best == Lowest && forall k :: 0 <= k < i ==> b[k] != Empty
    case Some(m) =>
      && 0 <= m < i && b[m] == Empty && best == MoveScore(b, m)
      && forall k :: 0 <= k < i && b[k] == Empty ==>
           MoveScore(b, k) <= best && (k < m ==> MoveScore(b, k) < best)
  }

  lemma {:induction false} RootScanChoice(b: Board, i: nat, best: int, bestMove: Option<int>)
    requires i <= 9 && RootScanned(b, i, best, bestMove)
    ensures RootScanned(b, 9, if RootScan(b, i, best, bestMove).Some? then MoveScore(b, RootScan(b, i, best, bestMove).value) else Lowest, RootScan(b, i, best, bestMove))
    decreases 9 - i
  {
    if i < 9 {
      if b[i] == Empty && MoveScore(b, i) > best {
        RootScanChoice(b, i + 1, MoveScore(b, i), Some(i));
      } else {
        if b[i] == Empty {
          assert bestMove.Some?;  // an empty cell scores at least -1 > Lowest
        }
        RootScanChoice(b, i + 1, best, bestMove);
      }
    }
  }

  /**
   * The choice of `computermove`: None exactly when no cell is empty;
   * otherwise an empty cell whose score is the greatest, and the first such
   * cell in index order (ties keep the earlier index).
   */
  lemma BestMoveIsFirstArgmax(b: Board)
    ensures BestMove(b).None? <==> forall k :: 0 <= k < 9 ==> b[k] != Empty
    ensures BestMove(b).Some? ==>
      var m := BestMove(b).value;
      && 0 <= m < 9 && b[m] == Empty
      && (forall k :: 0 <= k < 9 && b[k] == Empty ==> MoveScore(b, k) <= MoveScore(b, m))
      && (forall k :: 0 <= k < m && b[k] == Empty ==> MoveScore(b, k) < MoveScore(b, m))
  {
    RootScanChoice(b, 0, Lowest, None);
  }

  /** On a board that is still in play the chosen move achieves the minimax value of the position. */
  lemma BestMoveAchievesValue(b: Board)
    requires !Terminal(b)
    ensures BestMove(b).Some? && MoveScore(b, BestMove(b).value) == Value(b, true)
  {
    BestMoveIsFirstArgmax(b);
    ValueIsMinimax(b, true);
    var k :| 0 <= k < 9 && b[k] == Empty && Value(b, true) == ChildValue(b, k, true);
    assert MoveScore(b, k) <= MoveScore(b, BestMove(b).value);
  }

  /** When the machine can complete a line at once, the move it chooses scores a win. */
  lemma ImmediateWinIsScoredAsWin(b: Board, k: int)
    requires 0 <= k < 9 && b[k] == Empty && WinnerDetect(b[k := Machine], Machine)
    ensures BestMove(b).Some? && MoveScore(b, BestMove(b).value) == 1
  {
    BestMoveIsFirstArgmax(b);
    assert Child(b, k, true) == b[k := Machine];
    assert Value(b[k := Machine], false) == 1;
    assert MoveScore(b, k) == 1;
  }

  /**
   * The cell that `chess[row][col] = 2` writes after `divmod(first_move, 3)`:
   * Python's negative list indices make -9..-1 count from the end.
   */
  function FirstMoveCell(firstMove: int): (cell: int)
    requires -9 <= firstMove <= 8
    ensures 0 <= cell < 9
    ensures cell == (firstMove / 3 % 3) * 3 + firstMove % 3
  {
    if firstMove >= 0 then firstMove else firstMove + 9
  }

  /** The board after `computermove(chess, first_move)`. */
  function ComputerMoveBoard(b: Board, firstMove: Option<int>): Board
    requires firstMove.Some? ==> -9 <= firstMove.value <= 8
  {
    match firstMove
    case Some(f) => b[FirstMoveCell(f) := Machine]
    case None =>
      match BestMove(b)
      case None => b
      case Some(m) => b[m := Machine]
  }

  /**
   * `computermove`: with a forced first move, mark that cell whatever it
   * holds; otherwise try every empty cell, score it with `minimax`, put it
   * back, and finally mark the first cell with the strictly greatest score.
   */
  method ComputerMove(board: array<int>, firstMove: Option<int>)
    requires board.Length == 9
    requires firstMove.Some? ==> -9 <= firstMove.value <= 8
    modifies board
    ensures board[..] == ComputerMoveBoard(old(board[..]), firstMove)
  {
    if firstMove.Some? {
      var row, col := firstMove.value / 3, firstMove.value % 3;
      if row < 0 {
        row := row + 3;  // a negative list index counts from the end
      }
      board[Cell(row, col)] := Machine;
      return;
    }
    ghost var b: Board := board[..];
    var best := Lowest;
    var bestMove: Option<int> := None;
    for i := 0 to 9
      invariant board[..] == b
      invariant RootScan(b, i, best, bestMove) == BestMove(b)
    {
      if board[i] == Empty {
        board[i] := Machine;
        var score := Minimax(board, false);
        board[i] := Empty;
        assert board[..] == b;
        if score > best {
          best := score;
          bestMove := Some(i);
        }
      }
    }
    if bestMove.Some? {
      board[bestMove.value] := Machine;
    }
  }
}
