/**
 * `main` of first.py: the human moves first.  Each pass of the
 * `while True` loop reads one camera observation, applies `humanmove`,
 * checks for a human line and a full board, and, when no cheat was
 * reported, counts and searches a machine move, reads the chosen position
 * back from the captured output and sends `'2'+count+position`.
 *
 * The camera and the output capture are inputs: each pass is given a
 * `Turn` holding the observation (a position or None) and the outcome of
 * `int(output)` (a position, or a ValueError).
 */
module HumanFirst {
  import opened Wrappers
  import opened Rules
  import opened Cheat
  import opened Search
  import opened Communication

  datatype ParseOutcome = Parsed(position: int) | Unparsable
  datatype Turn = Turn(observation: Option<int>, parse: ParseOutcome)

  /** How a pass of the loop ends: `Continue` goes round again, the others `break`. */
  datatype Status = Continue | HumanWon | MachineWon | Draw

  /** `chess`, `computer_move_count` and the commands handed to `send_message`. */
  datatype State = State(board: Board, count: int, sent: seq<Command>)

  function InitialState(): State {
    State(InitBoard(), 0, [])
  }

  /** The cheat report `humanmove` sends, as a log entry. */
  function ReportLog(b: Board, i: int, detected: set<int>): seq<Command> {
    match HumanMoveReport(b, i, detected)
    case None => []
    case Some(cmd) => [cmd]
  }

  /** One pass of the loop. */
  function Next(s: State, detected: set<int>, turn: Turn): (State, Status) {
    match turn.observation
    case None => (s, Continue)
    case Some(p) => HumanTurn(s, p, detected, turn.parse)
  }

  /** A pass with an observation: `humanmove`, then the checks that follow it. */
  function HumanTurn(s: State, p: int, detected: set<int>, parse: ParseOutcome): (State, Status) {
    var afterHuman := State(HumanMoveBoard(s.board, p, detected), s.count, s.sent + ReportLog(s.board, p, detected));
    AfterHumanMove(afterHuman, HumanMoveCheats(s.board, p, detected), parse)
  }

  /** The human line and full board checks, then the machine unless a cheat was reported. */
  function AfterHumanMove(s: State, cheating: bool, parse: ParseOutcome): (State, Status) {
    if WinnerDetect(s.board, Human) then (s, HumanWon)
    else if Full(s.board) then (s, Draw)
    else if cheating then (s, Continue)
    else MachineTurn(s.(count := s.count + 1), parse)
  }

  /** The machine's half of a pass, after the counter has gone up: search, parse, send, check. */
  function MachineTurn(s: State, parse: ParseOutcome): (State, Status) {
    var afterMachine := ComputerMoveBoard(s.board, None);
    match parse
    case Unparsable => (State(afterMachine, s.count, s.sent), Continue)
    case Parsed(position) =>
      var sent := s.sent + [Command(MachinePieceMove, s.count, position)];
      if WinnerDetect(afterMachine, Machine) then (State(afterMachine, s.count, sent), MachineWon)
      else if Full(afterMachine) then (State(afterMachine, s.count, sent), Draw)
      else (State(afterMachine, s.count, sent), Continue)
  }

  /** The loop over a finite list of passes; `Continue` at the end means still waiting. */
  function Run(s: State, detected: set<int>, turns: seq<Turn>): (State, Status)
    decreases |turns|
  {
    if turns == [] then (s, Continue)
    else
      var (s', status) := Next(s, detected, turns[0]);
      if status == Continue then Run(s', detected, turns[1..]) else (s', status)
  }

  // ---------------------------------------------------------------------
  // Properties of one pass

  /**
   * The order of the checks in one pass: a missing observation changes
   * nothing; a human line or a full board after the human move ends the
   * game before any machine move; the machine moves, and the counter goes
   * up by one, only when `humanmove` reported no cheat; an unparsable
   * output leaves the machine move on the board but sends nothing and
   * checks nothing; otherwise `'2'+count+position` is sent and then the
   * machine line and full board are checked.
   */
  lemma NextOrder(s: State, detected: set<int>, turn: Turn)
    ensures turn.observation.None? ==> Next(s, detected, turn) == (s, Continue)
    ensures turn.observation.Some? ==>
      var p := turn.observation.value;
      var afterHuman := HumanMoveBoard(s.board, p, detected);
      var (s', status) := Next(s, detected, turn);
      && (WinnerDetect(afterHuman, Human) ==> status == HumanWon && s'.board == afterHuman)
      && (!WinnerDetect(afterHuman, Human) && Full(afterHuman) ==> status == Draw && s'.board == afterHuman)
      && (s'.count == s.count + 1 <==>
            !WinnerDetect(afterHuman, Human) && !Full(afterHuman) && !HumanMoveCheats(s.board, p, detected))
      && (s'.count == s.count || s'.count == s.count + 1)
      && (s'.count == s.count ==> s'.board == afterHuman && s'.sent == s.sent + ReportLog(s.board, p, detected))
      && (s'.count == s.count + 1 ==> s'.board == ComputerMoveBoard(afterHuman, None))
      && (s'.count == s.count + 1 && turn.parse.Unparsable? ==>
            status == Continue && s'.sent == s.sent + ReportLog(s.board, p, detected))
      && (s'.count == s.count + 1 && turn.parse.Parsed? ==>
            s'.sent == s.sent + ReportLog(s.board, p, detected) + [Command(MachinePieceMove, s'.count, turn.parse.position)]
            && (status == MachineWon <==> WinnerDetect(s'.board, Machine))
            && (status == Draw <==> !WinnerDetect(s'.board, Machine) && Full(s'.board)))
  {
  }

  // ---------------------------------------------------------------------
  // The move counter

  /** Every command sent is a machine move, numbered from 1 up to the counter, in increasing order. */
  ghost predicate MovesNumbered(s: State) {
    && s.count >= 0
    && (forall k :: 0 <= k < |s.sent| ==>
          s.sent[k].op == MachinePieceMove && 1 <= s.sent[k].first <= s.count)
    && (forall j, k :: 0 <= j < k < |s.sent| ==> s.sent[j].first < s.sent[k].first)
  }

  /** The k-th command (from 0) carries move number k+1, and every search has sent one. */
  ghost predicate MovesNumberedExactly(s: State) {
    && |s.sent| == s.count
    && forall k :: 0 <= k < |s.sent| ==> s.sent[k] == Command(MachinePieceMove, k + 1, s.sent[k].second)
  }

  /** With no detected positions a pass sends nothing, or one machine move numbered by the new counter. */
  lemma NextLog(s: State, turn: Turn)
    ensures var s' := Next(s, {}, turn).0;
      && (s'.count == s.count || s'.count == s.count + 1)
      && (s'.sent == s.sent
          || (s'.count == s.count + 1 && turn.parse.Parsed?
              && s'.sent == s.sent + [Command(MachinePieceMove, s'.count, turn.parse.position)]))
      && (s'.count == s.count + 1 && turn.parse.Parsed? ==> s'.sent != s.sent)
  {
    if turn.observation.Some? {
      var p := turn.observation.value;
      NoCheatWithoutDetections(s.board, p);
      assert s.sent + ReportLog(s.board, p, {}) == s.sent;
    }
  }

  lemma NextKeepsNumbering(s: State, turn: Turn)
    requires MovesNumbered(s)
    ensures MovesNumbered(Next(s, {}, turn).0)
    ensures MovesNumberedExactly(s) && turn.parse.Parsed? ==> MovesNumberedExactly(Next(s, {}, turn).0)
  {
    NextLog(s, turn);
    NumberingStep(s, Next(s, {}, turn).0, turn.parse);
  }

  lemma NumberingStep(s: State, s': State, parse: ParseOutcome)
    requires MovesNumbered(s)
    requires s'.count == s.count || s'.count == s.count + 1
    requires s'.sent == s.sent
      || (s'.count == s.count + 1 && parse.Parsed?
          && s'.sent == s.sent + [Command(MachinePieceMove, s'.count, parse.position)])
    requires s'.count == s.count + 1 && parse.Parsed? ==> s'.sent != s.sent
    ensures MovesNumbered(s')
    ensures MovesNumberedExactly(s) && parse.Parsed? ==> MovesNumberedExactly(s')
  {
    if s'.sent != s.sent {
      assert s'.sent[|s.sent|].first == s'.count;
      assert forall k :: 0 <= k < |s.sent| ==> s'.sent[k] == s.sent[k];
    }
  }

  /**
   * `computer_move_count` starts at 0 and goes up once before each search,
   * and `detected_positions` stays empty, so only machine moves are ever
   * sent and their numbers increase; they run 1, 2, 3, ... when every
   * captured output parses, and skip a number after each one that does not.
   */
  lemma {:induction false} RunNumbersMoves(s: State, turns: seq<Turn>)
    requires MovesNumbered(s)
    ensures MovesNumbered(Run(s, {}, turns).0)
    ensures MovesNumberedExactly(s) && (forall k :: 0 <= k < |turns| ==> turns[k].parse.Parsed?) ==>
      MovesNumberedExactly(Run(s, {}, turns).0)
    decreases |turns|
  {
    if turns != [] {
      NextKeepsNumbering(s, turns[0]);
      var s' := Next(s, {}, turns[0]).0;
      RunNumbersMoves(s', turns[1..]);
    }
  }

  /** A game starts with move numbering in order. */
  lemma InitialNumbering()
    ensures MovesNumbered(InitialState()) && MovesNumberedExactly(InitialState())
  {
  }

  // ---------------------------------------------------------------------
  // The program's state, updated in place

  class Game {
    var board: array<int>
    var detected: set<int>
    var count: int
    var sent: seq<Command>

    ghost predicate Valid()
      reads this
    {
      board.Length == 9
    }

    function Current(): State
      reads this, board
      requires Valid()
    {
      State(board[..], count, sent)
    }

    /** `chess = init_board()`, `detected_positions = set()`, `computer_move_count = 0`. */
    constructor ()
      ensures Valid() && fresh(board)
      ensures Current() == InitialState() && detected == {}
    {
      var chess := NewBoard();
      board := chess;
      detected := {};
      count := 0;
      sent := [];
    }

    /** The checks after `humanmove`, and the machine's half when no cheat was reported. */
    method AfterHuman(cheating: bool, parse: ParseOutcome) returns (status: Status)
      requires Valid()
      modifies this`count, this`sent, board
      ensures Valid()
      ensures (Current(), status) == AfterHumanMove(old(Current()), cheating, parse)
    {
      if WinnerDetect(board[..], Human) {
        return HumanWon;
      }
      if Full(board[..]) {
        return Draw;
      }
      if cheating {
        return Continue;
      }
      count := count + 1;
      status := MachineHalf(parse);
    }

    /** The machine's half of a pass: `computermove`, then the parsed move is sent and the board checked. */
    method MachineHalf(parse: ParseOutcome) returns (status: Status)
      requires Valid()
      modifies this`sent, board
      ensures Valid()
      ensures (Current(), status) == MachineTurn(old(Current()), parse)
    {
      ComputerMove(board, None);
      if parse.Unparsable? {
        return Continue;
      }
      sent := sent + [Command(MachinePieceMove, count, parse.position)];
      if WinnerDetect(board[..], Machine) {
        return MachineWon;
      }
      if Full(board[..]) {
        return Draw;
      }
      return Continue;
    }

    /** One pass of the `while True` loop. */
    method Step(turn: Turn) returns (status: Status)
      requires Valid()
      modifies this`count, this`sent, board
      ensures Valid()
      ensures (Current(), status) == Next(old(Current()), detected, turn)
    {
      if turn.observation.None? {
        return Continue;
      }
      var position := turn.observation.value;
      var cheating, report := HumanMove(board, position, detected);
      if report.Some? {
        sent := sent + [report.value];
      }
      assert Current() == State(HumanMoveBoard(old(board[..]), position, detected), count,
                                old(sent) + ReportLog(old(board[..]), position, detected));
      status := AfterHuman(cheating, turn.parse);
    }

    /** The loop, for as many passes as there are turns or until the game ends. */
    method Play(turns: seq<Turn>) returns (status: Status)
      requires Valid()
      modifies this`count, this`sent, board
      ensures Valid()
      ensures (Current(), status) == Run(old(Current()), detected, turns)
    {
      var i := 0;
      while i < |turns|
        invariant Valid() && 0 <= i <= |turns|
        invariant Run(Current(), detected, turns[i..]) == Run(old(Current()), detected, turns)
      {
        assert turns[i..][1..] == turns[i + 1..];
        status := Step(turns[i]);
        i := i + 1;
        if status != Continue {
          return;
        }
      }
      return Continue;
    }
  }
}
