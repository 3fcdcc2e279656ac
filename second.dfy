/**
 * `main` of second.py: the machine moves first.  The operator's first move
 * is checked to lie in 0..8, placed by `computermove(chess, first_move)`,
 * and counted as move 1 without being sent.  Each pass of the loop then
 * reads an observation, applies `humanmove`, checks for a human line and a
 * full board, and, when no cheat was reported, counts and searches a
 * machine move; an output that does not parse ends the program, unlike in
 * first.py.
 *
 * As in first.py the camera and the output capture are inputs, one `Turn`
 * per pass.
 */
module MachineFirst {
  import opened Wrappers
  import opened Rules
  import opened Cheat
  import opened Search
  import opened Communication

  datatype ParseOutcome = Parsed(position: int) | Unparsable
  datatype Turn = Turn(observation: Option<int>, parse: ParseOutcome)

  /** How a pass ends: `Continue` goes round again; `Aborted` is the `except (ValueError, IndexError)` exit. */
  datatype Status = Continue | HumanWon | MachineWon | Draw | Aborted

  /** `chess`, `computer_move_count` and the commands handed to `send_message`. */
  datatype State = State(board: Board, count: int, sent: seq<Command>)

  /** The state after the opening, or None when the first move is outside 0..8 and `main` returns. */
  function Opening(firstMove: int): Option<State> {
    if !(0 <= firstMove <= 8) then None
    else Some(State(ComputerMoveBoard(InitBoard(), Some(firstMove)), 1, []))
  }

  function ReportLog(b: Board, i: int, detected: set<int>): seq<Command> {
    match HumanMoveReport(b, i, detected)
    case None => []
    case Some(cmd) => [cmd]
  }

  /** One pass of the loop. */
  function Next(s: State, detected: set<int>, turn: Turn): (State, Status) {
    match turn.observation
    case None => (s, Continue)
    case Some(p) => HumanTurn(s, p, detected, turn.parse)
  }

  /** A pass with an observation: `humanmove`, then the checks that follow it. */
  function HumanTurn(s: State, p: int, detected: set<int>, parse: ParseOutcome): (State, Status) {
    var afterHuman := State(HumanMoveBoard(s.board, p, detected), s.count, s.sent + ReportLog(s.board, p, detected));
    AfterHumanMove(afterHuman, HumanMoveCheats(s.board, p, detected), parse)
  }

  /** The human line and full board checks, then the machine unless a cheat was reported. */
  function AfterHumanMove(s: State, cheating: bool, parse: ParseOutcome): (State, Status) {
    if WinnerDetect(s.board, Human) then (s, HumanWon)
    else if Full(s.board) then (s, Draw)
    else if cheating then (s, Continue)
    else MachineTurn(s.(count := s.count + 1), parse)
  }

  /**
   * The machine's half of a pass, after the counter has gone up: search,
   * parse, send, check.  This is the one place where second.py differs from
   * first.py: a ValueError from `int(output)` ends the program (`Aborted`)
   * where first.py goes round again.
   */
  function MachineTurn(s: State, parse: ParseOutcome): (State, Status) {
    var afterMachine := ComputerMoveBoard(s.board, None);
    match parse
    case Unparsable => (State(afterMachine, s.count, s.sent), Aborted)
    case Parsed(position) =>
      var sent := s.sent + [Command(MachinePieceMove, s.count, position)];
      if WinnerDetect(afterMachine, Machine) then (State(afterMachine, s.count, sent), MachineWon)
      else if Full(afterMachine) then (State(afterMachine, s.count, sent), Draw)
      else (State(afterMachine, s.count, sent), Continue)
  }

  function Run(s: State, detected: set<int>, turns: seq<Turn>): (State, Status)
    decreases |turns|
  {
    if turns == [] then (s, Continue)
    else
      var (s', status) := Next(s, detected, turns[0]);
      if status == Continue then Run(s', detected, turns[1..]) else (s', status)
  }

  // ---------------------------------------------------------------------
  // Properties

  /**
   * The opening: a first move outside 0..8 leaves everything untouched;
   * otherwise the machine mark is on that cell and nowhere else, the counter
   * is 1, and nothing has been sent (the `11{first_move}` line is only printed).
   */
  lemma OpeningState(firstMove: int)
    ensures Opening(firstMove).None? <==> !(0 <= firstMove <= 8)
    ensures Opening(firstMove).Some? ==>
      var s := Opening(firstMove).value;
      && s.count == 1 && s.sent == []
      && s.board[firstMove] == Machine
      && forall k :: 0 <= k < 9 && k != firstMove ==> s.board[k] == Empty
  {
  }

  /**
   * The order of the checks in one pass: a missing observation changes
   * nothing; a human line, then a full board, end the game before any
   * machine move; the machine moves, and the counter goes up by one, only
   * when `humanmove` reported no cheat; an unparsable output ends the
   * program with the machine move on the board and nothing sent; otherwise
   * `'2'+count+position` is sent and then the machine line and full board
   * are checked.
   */
  lemma NextOrder(s: State, detected: set<int>, turn: Turn)
    ensures turn.observation.None? ==> Next(s, detected, turn) == (s, Continue)
    ensures turn.observation.Some? ==>
      var p := turn.observation.value;
      var afterHuman := HumanMoveBoard(s.board, p, detected);
      var (s', status) := Next(s, detected, turn);
      && (WinnerDetect(afterHuman, Human) ==> status == HumanWon && s'.board == afterHuman)
      && (!WinnerDetect(afterHuman, Human) && Full(afterHuman) ==> status == Draw && s'.board == afterHuman)
      && (s'.count == s.count + 1 <==>
            !WinnerDetect(afterHuman, Human) && !Full(afterHuman) && !HumanMoveCheats(s.board, p, detected))
      && (s'.count == s.count || s'.count == s.count + 1)
      && (s'.count == s.count ==> s'.board == afterHuman && s'.sent == s.sent + ReportLog(s.board, p, detected))
      && (s'.count == s.count + 1 ==> s'.board == ComputerMoveBoard(afterHuman, None))
      && (s'.count == s.count + 1 && turn.parse.Unparsable? ==>
            status == Aborted && s'.sent == s.sent + ReportLog(s.board, p, detected))
      && (s'.count == s.count + 1 && turn.parse.Parsed? ==>
            s'.sent == s.sent + ReportLog(s.board, p, detected) + [Command(MachinePieceMove, s'.count, turn.parse.position)]
            && (status == MachineWon <==> WinnerDetect(s'.board, Machine))
            && (status == Draw <==> !WinnerDetect(s'.board, Machine) && Full(s'.board)))
  {
  }

  /**
   * The n-th searched move is sent with number n+1: the k-th command (from
   * 0) is a machine move numbered k+2, and every search but one that
   * aborted has sent its command.
   */
  ghost predicate MovesNumbered(s: State) {
    && |s.sent| == s.count - 1
    && forall k :: 0 <= k < |s.sent| ==> s.sent[k] == Command(MachinePieceMove, k + 2, s.sent[k].second)
  }

  lemma NextLog(s: State, turn: Turn)
    ensures var (s', status) := Next(s, {}, turn);
      && (status != Aborted ==>
            (s'.count == s.count && s'.sent == s.sent)
            || (s'.count == s.count + 1 && turn.parse.Parsed?
                && s'.sent == s.sent + [Command(MachinePieceMove, s'.count, turn.parse.position)]))
      && (status == Aborted ==> s'.count == s.count + 1 && s'.sent == s.sent)
  {
    if turn.observation.Some? {
      var p := turn.observation.value;
      NoCheatWithoutDetections(s.board, p);
      assert s.sent + ReportLog(s.board, p, {}) == s.sent;
    }
  }

  lemma NumberingStep(s: State, s': State, parse: ParseOutcome)
    requires MovesNumbered(s)
    requires (s'.count == s.count && s'.sent == s.sent)
      || (s'.count == s.count + 1 && parse.Parsed?
          && s'.sent == s.sent + [Command(MachinePieceMove, s'.count, parse.position)])
    ensures MovesNumbered(s')
  {
    if s'.sent != s.sent {
      assert forall k :: 0 <= k < |s.sent| ==> s'.sent[k] == s.sent[k];
    }
  }

  /**
   * After the opening, with `detected_positions` empty throughout, the
   * commands sent are the machine moves numbered 2, 3, 4, ... in order
   * with no gap, and the counter is one ahead of them (two after an abort).
   */
  lemma {:induction false} RunNumbersMoves(s: State, turns: seq<Turn>)
    requires MovesNumbered(s)
    ensures var (s', status) := Run(s, {}, turns);
      && (status != Aborted ==> MovesNumbered(s'))
      && (status == Aborted ==> MovesNumbered(State(s'.board, s'.count - 1, s'.sent)))
    decreases |turns|
  {
    if turns != [] {
      NextLog(s, turns[0]);
      var (s', status) := Next(s, {}, turns[0]);
      if status == Aborted {
        NumberingStep(s, State(s'.board, s'.count - 1, s'.sent), turns[0].parse);
      } else {
        NumberingStep(s, s', turns[0].parse);
        if status == Continue {
          RunNumbersMoves(s', turns[1..]);
        }
      }
    }
  }

  lemma OpeningNumbering(firstMove: int)
    requires 0 <= firstMove <= 8
    ensures MovesNumbered(Opening(firstMove).value)
  {
  }

  // ---------------------------------------------------------------------
  // The program's state, updated in place

  class Game {
    var board: array<int>
    var detected: set<int>
    var count: int
    var sent: seq<Command>

    ghost predicate Valid()
      reads this
    {
      board.Length == 9
    }

    function Current(): State
      reads this, board
      requires Valid()
    {
      State(board[..], count, sent)
    }

    /** `chess = init_board()`, `detected_positions = set()`. */
    constructor ()
      ensures Valid() && fresh(board)
      ensures board[..] == InitBoard() && sent == [] && detected == {}
    {
      var chess := NewBoard();
      board := chess;
      detected := {};
      count := 0;
      sent := [];
    }

    /** The opening: validate `first_move`, place it, set the counter to 1. */
    method Open(firstMove: int) returns (started: bool)
      requires Valid() && board[..] == InitBoard() && sent == []
      modifies this`count, board
      ensures Valid()
      ensures started == Opening(firstMove).Some?
      ensures started ==> Current() == Opening(firstMove).value
      ensures !started ==> board[..] == old(board[..]) && count == old(count)
    {
      if !(0 <= firstMove <= 8) {
        return false;
      }
      ComputerMove(board, Some(firstMove));
      count := 1;
      return true;
    }

    /** The checks after `humanmove`, and the machine's half when no cheat was reported. */
    method AfterHuman(cheating: bool, parse: ParseOutcome) returns (status: Status)
      requires Valid()
      modifies this`count, this`sent, board
      ensures Valid()
      ensures (Current(), status) == AfterHumanMove(old(Current()), cheating, parse)
    {
      if WinnerDetect(board[..], Human) {
        return HumanWon;
      }
      if Full(board[..]) {
        return Draw;
      }
      if cheating {
        return Continue;
      }
      count := count + 1;
      status := MachineHalf(parse);
    }

    /** The machine's half of a pass: `computermove`, then the parsed move is sent and the board checked. */
    method MachineHalf(parse: ParseOutcome) returns (status: Status)
      requires Valid()
      modifies this`sent, board
      ensures Valid()
      ensures (Current(), status) == MachineTurn(old(Current()), parse)
    {
      ComputerMove(board, None);
      if parse.Unparsable? {
        return Aborted;
      }
      sent := sent + [Command(MachinePieceMove, count, parse.position)];
      if WinnerDetect(board[..], Machine) {
        return MachineWon;
      }
      if Full(board[..]) {
        return Draw;
      }
      return Continue;
    }

    /** One pass of the `while True` loop. */
    method Step(turn: Turn) returns (status: Status)
      requires Valid()
      modifies this`count, this`sent, board
      ensures Valid()
      ensures (Current(), status) == Next(old(Current()), detected, turn)
    {
      if turn.observation.None? {
        return Continue;
      }
      var position := turn.observation.value;
      var cheating, report := HumanMove(board, position, detected);
      if report.Some? {
        sent := sent + [report.value];
      }
      assert Current() == State(HumanMoveBoard(old(board[..]), position, detected), count,
                                old(sent) + ReportLog(old(board[..]), position, detected));
      status := AfterHuman(cheating, turn.parse);
    }

    /** The loop, for as many passes as there are turns or until it breaks. */
    method Play(turns: seq<Turn>) returns (status: Status)
      requires Valid()
      modifies this`count, this`sent, board
      ensures Valid()
      ensures (Current(), status) == Run(old(Current()), detected, turns)
    {
      var i := 0;
      while i < |turns|
        invariant Valid() && 0 <= i <= |turns|
        invariant Run(Current(), detected, turns[i..]) == Run(old(Current()), detected, turns)
      {
        assert turns[i..][1..] == turns[i + 1..];
        status := Step(turns[i]);
        i := i + 1;
        if status != Continue {
          return;
        }
      }
      return Continue;
    }
  }
}
