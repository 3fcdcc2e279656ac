/**
 * `humanmove` of decision.py: place the human mark, compare the
 * "detected position -> board index" maps taken before and after, and undo
 * the placement when they differ.
 *
 * The maps are built by a comprehension that visits the cells in row-major
 * order and, for every human cell, maps every detected position to that
 * cell's index; later cells overwrite earlier ones, so every detected
 * position ends up mapped to the highest human index.  The comparison
 * therefore fires exactly when there are detected positions, there was a
 * human mark before, and the new mark lies above the highest of them.
 */
module Cheat {
  import opened Wrappers
  import opened Rules
  import opened Communication

  /** The highest index below `k` that holds a human mark. */
  function HighestBelow(b: Board, k: nat): (h: Option<int>)
    requires k <= 9
    ensures h.Some? ==> (0 <= h.value < k && b[h.value] == Human
                         && forall j :: h.value < j < k ==> b[j] != Human)
    ensures h.None? ==> forall j :: 0 <= j < k ==> b[j] != Human
  {
    if k == 0 then None
    else if b[k - 1] == Human then Some(k - 1)
    else HighestBelow(b, k - 1)
  }

  /** The last human cell in row-major order, if any. */
  function HighestHuman(b: Board): Option<int> {
    HighestBelow(b, 9)
  }

  /** Maps every detected position to `index`. */
  function AllTo(detected: set<int>, index: int): map<int, int> {
    map pos | pos in detected :: index
  }

  /**
   * The dictionary comprehension of `humanmove`, from cell `k` on, added to
   * what the cells before `k` produced.
   */
  function PositionsFrom(b: Board, detected: set<int>, k: nat, acc: map<int, int>): map<int, int>
    requires k <= 9
    decreases 9 - k
  {
    if k == 9 then acc
    else PositionsFrom(b, detected, k + 1, if b[k] == Human then acc + AllTo(detected, k) else acc)
  }

  /** `{pos: row*3+col for row .. for col .. for pos in detected_positions if chess[row][col] == 1}` */
  function Positions(b: Board, detected: set<int>): map<int, int> {
    PositionsFrom(b, detected, 0, map[])
  }

  lemma {:induction false} PositionsFromHighest(b: Board, detected: set<int>, k: nat, acc: map<int, int>)
    requires k <= 9
    ensures var h := HighestHuman(b);
      PositionsFrom(b, detected, k, acc) ==
        if h.Some? && h.value >= k then acc + AllTo(detected, h.value) else acc
    decreases 9 - k
  {
    var h := HighestHuman(b);
    if k < 9 {
      if b[k] == Human {
        var acc' := acc + AllTo(detected, k);
        PositionsFromHighest(b, detected, k + 1, acc');
        if h.value >= k + 1 {
          assert acc' + AllTo(detected, h.value) == acc + AllTo(detected, h.value);
        }
      } else {
        PositionsFromHighest(b, detected, k + 1, acc);
      }
    }
  }

  lemma HasElement(s: set<int>)
    requires s != {}
    ensures exists x :: x in s
  {
    assert (forall x :: x !in s) ==> s == {};
  }

  /** Every detected position is mapped to the highest human index, or the map is empty. */
  lemma PositionsAreHighest(b: Board, detected: set<int>)
    ensures Positions(b, detected) ==
      if HighestHuman(b).Some? then AllTo(detected, HighestHuman(b).value) else map[]
  {
    PositionsFromHighest(b, detected, 0, map[]);
    if HighestHuman(b).Some? {
      assert map[] + AllTo(detected, HighestHuman(b).value) == AllTo(detected, HighestHuman(b).value);
    }
  }

  /** The highest human index is the human cell with no human cell above it. */
  lemma HighestIsUnique(b: Board, x: int)
    requires 0 <= x < 9 && b[x] == Human
    requires forall j :: x < j < 9 ==> b[j] != Human
    ensures HighestHuman(b) == Some(x)
  {
  }

  /** Placing a human mark at `i` makes `i` the highest human index unless a higher one exists. */
  lemma HighestAfterPlacing(b: Board, i: int)
    requires 0 <= i < 9
    ensures HighestHuman(b[i := Human]) ==
      if HighestHuman(b).Some? && HighestHuman(b).value > i then HighestHuman(b) else Some(i)
  {
    var h := HighestHuman(b);
    var b' := b[i := Human];
    if h.Some? && h.value > i {
      HighestIsUnique(b', h.value);
    } else {
      HighestIsUnique(b', i);
    }
  }

  /** The loop over `original_positions`: some position's index changed. */
  predicate Moved(original: map<int, int>, updated: map<int, int>) {
    exists pos :: pos in original && pos in updated && original[pos] != updated[pos]
  }

  /** The three conditions under which the comparison fires. */
  predicate CheatCondition(b: Board, i: int, detected: set<int>) {
    detected != {} && HighestHuman(b).Some? && i > HighestHuman(b).value
  }

  /**
   * The comparison of `humanmove` fires exactly under the three conditions,
   * and then every position compares the old highest human index with `i`.
   */
  lemma CheatDetectedIff(b: Board, i: int, detected: set<int>)
    requires 0 <= i < 9
    ensures Moved(Positions(b, detected), Positions(b[i := Human], detected)) <==> CheatCondition(b, i, detected)
    ensures CheatCondition(b, i, detected) ==> forall pos :: pos in detected ==>
      pos in Positions(b, detected) && Positions(b, detected)[pos] == HighestHuman(b).value
      && pos in Positions(b[i := Human], detected) && Positions(b[i := Human], detected)[pos] == i
  {
    PositionsAreHighest(b, detected);
    PositionsAreHighest(b[i := Human], detected);
    HighestAfterPlacing(b, i);
    if CheatCondition(b, i, detected) {
      HasElement(detected);
      var pos :| pos in detected;
      assert pos in Positions(b, detected) && pos in Positions(b[i := Human], detected);
    }
  }

  /** Whether `humanmove` reports a cheat. */
  predicate HumanMoveCheats(b: Board, i: int, detected: set<int>) {
    0 <= i <= 8 && CheatCondition(b, i, detected)
  }

  /** The board `humanmove` returns. */
  function HumanMoveBoard(b: Board, i: int, detected: set<int>): Board {
    if !(0 <= i <= 8) then b
    else if CheatCondition(b, i, detected) then b[i := Empty]
    else b[i := Human]
  }

  /** The message `humanmove` hands to `send_message`, `"3{old}{new}"`. */
  function HumanMoveReport(b: Board, i: int, detected: set<int>): Option<Command> {
    if HumanMoveCheats(b, i, detected) then Some(Command(CheatReport, HighestHuman(b).value, i))
    else None
  }

  /**
   * What `humanmove` does to the board: outside 0..8 nothing; on a cheat
   * only cell `i` changes, to empty whatever it held; otherwise only cell
   * `i` changes, to the human mark even when it held the machine's.
   */
  lemma HumanMoveEffect(b: Board, i: int, detected: set<int>)
    ensures !(0 <= i <= 8) ==> HumanMoveBoard(b, i, detected) == b && !HumanMoveCheats(b, i, detected)
    ensures forall k :: 0 <= k < 9 && k != i ==> HumanMoveBoard(b, i, detected)[k] == b[k]
    ensures 0 <= i <= 8 && !HumanMoveCheats(b, i, detected) ==> HumanMoveBoard(b, i, detected)[i] == Human
    ensures HumanMoveCheats(b, i, detected) ==> HumanMoveBoard(b, i, detected)[i] == Empty && b[i] != Human
    ensures HumanMoveCheats(b, i, detected) <==> HumanMoveReport(b, i, detected).Some?
  {
  }

  /** With no detected positions, as in both game programs, `humanmove` never reports a cheat. */
  lemma NoCheatWithoutDetections(b: Board, i: int)
    ensures !HumanMoveCheats(b, i, {}) && HumanMoveReport(b, i, {}) == None
    ensures 0 <= i <= 8 ==> HumanMoveBoard(b, i, {}) == b[i := Human]
  {
  }

  /** A cheat report can erase a machine mark: the reset writes 0, not the cell's old value. */
  lemma CheatErasesMachineMark()
    ensures HumanMoveCheats([1, 0, 2, 0, 0, 0, 0, 0, 0], 2, {5})
    ensures HumanMoveBoard([1, 0, 2, 0, 0, 0, 0, 0, 0], 2, {5}) == [1, 0, 0, 0, 0, 0, 0, 0, 0]
    ensures HumanMoveReport([1, 0, 2, 0, 0, 0, 0, 0, 0], 2, {5}) == Some(Command(CheatReport, 0, 2))
  {
    var b: Board := [1, 0, 2, 0, 0, 0, 0, 0, 0];
    assert HighestHuman(b) == Some(0);
  }

  /** Writes `mark` where `humanmove` writes: `chess[0][i]`, `chess[1][i-3]` or `chess[2][i-6]`. */
  method SetCell(board: array<int>, i: int, mark: int)
    requires board.Length == 9 && 0 <= i <= 8
    modifies board
    ensures board[..] == old(board[..])[i := mark]
  {
    if 0 <= i <= 2 {
      board[Cell(0, i)] := mark;
    } else if 3 <= i <= 5 {
      board[Cell(1, i - 3)] := mark;
    } else {
      board[Cell(2, i - 6)] := mark;
    }
  }

  /**
   * `humanmove(chess, i, detected_positions)`: returns whether a cheat was
   * detected and the cheat report it sent, if any.
   */
  method HumanMove(board: array<int>, i: int, detected: set<int>) returns (cheating: bool, report: Option<Command>)
    requires board.Length == 9
    modifies board
    ensures board[..] == HumanMoveBoard(old(board[..]), i, detected)
    ensures cheating == HumanMoveCheats(old(board[..]), i, detected)
    ensures report == HumanMoveReport(old(board[..]), i, detected)
  {
    ghost var b: Board := board[..];
    var originalPositions := Positions(board[..], detected);
    if !(0 <= i <= 8) {
      return false, None;
    }
    SetCell(board, i, Human);
    var newPositions := Positions(board[..], detected);
    CheatDetectedIff(b, i, detected);
    var unchecked := originalPositions.Keys;
    while unchecked != {}
      invariant unchecked <= originalPositions.Keys
      invariant board[..] == b[i := Human]
      invariant forall pos :: pos in originalPositions && pos !in unchecked ==>
        !(pos in newPositions && originalPositions[pos] != newPositions[pos])
      decreases unchecked
    {
      HasElement(unchecked);
      var pos :| pos in unchecked;
      if pos in newPositions && originalPositions[pos] != newPositions[pos] {
        var oldPos, newPos := originalPositions[pos], newPositions[pos];
        report := Some(Command(CheatReport, oldPos, newPos));
        SetCell(board, i, Empty);
        assert board[..] == b[i := Empty];
        return true, report;
      }
      unchecked := unchecked - {pos};
    }
    return false, None;
  }
}
