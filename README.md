# Tic-tac-toe robot arm: decision core, command frames and controllers

A robot arm plays tic-tac-toe against a person. A camera reports where the
person placed a piece. The program updates a 3x3 board of 0 (empty),
1 (human) and 2 (machine). It checks the human's move for cheating,
searches the machine's reply with minimax, and sends the arm a command
string over a serial line. Each command is wrapped in a frame
`AA 55 <UTF-8 bytes> 9A`.

This project models that core in Dafny:

- **Rules** (`rules.dfy`): the board as a flat sequence of nine cells.
  - It covers `init_board`, `winnerdetect` and `full`.
  - `winnerdetect` is proved equal to a geometric definition of three in a line.
  - `full` is proved equivalent to "no cell is empty" and to "no empty cells remain".
- **Search** (`search.dfy`): `minimax` and `computermove`.
  - The recursive search is a pure function over the board.
  - The in-place version (place a mark, recurse, undo it) is a method proved to return that function's value and to restore the board.
  - The root choice is proved to be the first empty cell with the highest score.
  - The forced first move follows Python's `divmod` and negative list indexing.
- **Cheat** (`cheat.dfy`): `humanmove`.
  - The two "detected position -> board index" dictionaries are modelled as the comprehension builds them.
  - The comparison is proved to fire exactly when there are detected positions, there was a human mark before, and the new mark lies above the highest of them.
  - On a cheat the placed cell is reset to empty and a `3{old}{new}` report is sent.
- **Communication** (`communication.dfy`, `decimal.dfy`): the frame `send_message` builds, and the command strings.
  - UTF-8 encoding has a decoder and a round trip.
  - The frame has a round trip.
  - The opcodes 1 to 5 and Python's `str(int)` are modelled.
- **Capture** (`capture.dfy`): how both game programs read the machine's move back from the captured standard output with `int(output)`.
- **HumanFirst** (`first.dfy`) and **MachineFirst** (`second.dfy`): the main loops of first.py and second.py.
  - One pass is a pure transition over (board, move counter, commands sent).
  - A `Game` class holds the same state in place, and its `Step` and `Play` methods are proved against that transition.
  - The sent move numbers are proved to increase. When every output parses they run 1, 2, 3, ... in first.py. In second.py they run 2, 3, 4, ..., because the opening counts as move 1 and is never sent.
- **Rotated** (`rotated4.py`, `rotated.dfy`): the four-step sequence for the rotated board.
  - It covers the coordinate remapping and the Enter-key state machine that sends `4xy`, `4mn`, `5ab`, `5cd` and then exits.

Two inputs are parameters of each pass:
- the camera observation: a position, or none;
- the outcome of `int(output)` on the captured text: a number, or a ValueError.

Serial I/O is represented by the list of commands handed to `send_message`.

## Model

| member | source | states |
|---|---|---|
| Rules.InitBoard | decision.py:28-43 | the new board has all nine cells empty |
| Rules.NewBoard | first.py:72 | `chess = init_board()` yields a fresh nine-cell array equal to the empty board |
| Rules.WinnerDetectIsThreeInARow | decision.py:327-377 | `winnerdetect(b, p)` holds if and only if some three cells in a straight line (a row, a column or a diagonal, inside the grid) all hold `p` |
| Rules.SegmentIsALine | decision.py:353-377 | every geometric three-in-a-line is one of the eight lines `winnerdetect` tests |
| Rules.WinnerDetectExample | decision.py:349-351 | the documented example: a top row of human marks is a human win and not a machine win |
| Rules.Full | decision.py:406-414 | the row-by-row scan reports full exactly when no cell is empty |
| Rules.RowsCoverTheBoard | decision.py:406-414 | the three rows together hold every cell, so "no row has an empty cell" equals "no cell is empty" |
| Rules.FullExamples | decision.py:398-404 | the two documented boards: one full, one with an empty cell |
| Rules.FillOneCell | decision.py:286-292 | a tentative mark on an empty cell lowers the number of empty cells by one, so the recursion terminates |
| Rules.NoEmptyCell | decision.py:406-414 | no empty cells are left exactly when every cell is filled |
| Rules.FullIffNoEmptyCount | decision.py:406-414 | `full` holds exactly when no empty cells remain |
| Search.Value | decision.py:238-325 | the minimax score of any board lies in -1..1, so the infinite starting values never survive |
| Search.Scan | decision.py:279-325 | the loop over cells 0..8 stays within -1..1 once it has seen an empty cell or started from a real score |
| Search.ScanIsBestChild | decision.py:279-325 | the loop's result is the best (max or min) of the starting value and every empty cell's child score, and equals the start when no empty cell is left |
| Search.ValueIsMinimax | decision.py:279-325 | on a non-terminal board the score bounds every child's score on the mover's side and equals one of them |
| Search.TerminalScores | decision.py:267-277 | the terminal checks come first and in order: a machine line scores 1, else a human line -1, else a full board 0 |
| Search.Minimax | decision.py:238-325 | the in-place recursive search returns the pure minimax value and leaves the board as it found it |
| Search.RootScan | decision.py:205-229 | the root loop returns either the move it started with or an empty cell at or after the current index |
| Search.BestMove | decision.py:201-229 | a chosen move is an empty cell |
| Search.RootScanChoice | decision.py:205-229 | the strict `score > best_score` update keeps the first cell of highest score among those scanned |
| Search.BestMoveIsFirstArgmax | decision.py:205-229 | no move is chosen exactly when the board has no empty cell; otherwise the choice scores at least every empty cell and strictly more than every earlier one |
| Search.BestMoveAchievesValue | decision.py:205-229 | on a non-terminal board the chosen move's score equals the minimax value of the position |
| Search.ImmediateWinIsScoredAsWin | decision.py:205-229 | when some empty cell completes a machine line, the chosen move scores 1 |
| Search.FirstMoveCell | decision.py:193-197 | `divmod(first_move, 3)` followed by list indexing marks cell `first_move`, or `first_move + 9` for -9..-1 |
| Search.ComputerMove | decision.py:166-237 | the method leaves the board equal to the specification: the forced cell marked, or the best move marked, or no change on a full board |
| Cheat.HighestBelow | decision.py:105-111 | the result is the highest human cell below the bound, or none when there is no human cell |
| Cheat.PositionsFromHighest | decision.py:105-111 | the comprehension's later cells overwrite earlier ones, so all entries end at the highest human index |
| Cheat.PositionsAreHighest | decision.py:130-136 | both dictionaries map every detected position to the highest human index, or are empty |
| Cheat.HighestAfterPlacing | decision.py:116-136 | after placing at `i` the highest human index is `i`, unless a higher one already existed |
| Cheat.CheatDetectedIff | decision.py:138-140 | some position changes index exactly when positions were detected, a human mark existed before and `i` lies above the highest one; the report then carries old highest and `i` |
| Cheat.HumanMoveEffect | decision.py:116-161 | out of range leaves the board unchanged with no report; otherwise only cell `i` changes, to 1 or, on a cheat, to 0; a report is sent exactly on a cheat |
| Cheat.NoCheatWithoutDetections | first.py:73-89 | with the empty set the programs pass, no cheat is ever reported and the move is simply placed |
| Cheat.CheatErasesMachineMark | decision.py:152-158 | the reset writes 0 even when the cell held a machine mark: a concrete board where a report erases a 2 |
| Cheat.SetCell | decision.py:116-124 | the three row branches write exactly cell `i` |
| Cheat.HumanMove | decision.py:74-164 | the in-place procedure returns the cheat flag and report and leaves the board the specification describes |
| Communication.EncodeChar | communication.py:61 | each character encodes to one to four bytes |
| Communication.DecodeFirst | communication.py:61 | decoding consumes one to four bytes of the input |
| Communication.Message | first.py:127 | the command string `f'{op}{a}{b}'` starts with the opcode digit the receiver reads back; with single-digit arguments it is three characters whose last two denote the arguments |
| Communication.DecodeEncodedChar | communication.py:61 | decoding the bytes of one encoded character gives that character back, whatever follows |
| Communication.Utf8RoundTrip | communication.py:61 | decoding `message.encode('utf-8')` gives the message back |
| Communication.AsciiUtf8 | communication.py:61 | an ASCII command encodes to one byte per character, equal to its code |
| Communication.SendMessage | communication.py:31-68 | the frame is header AA 55, then the UTF-8 bytes of the message, then tail 9A, three bytes longer than the payload |
| Communication.FrameRoundTrip | communication.py:56-68 | stripping header and tail and decoding recovers the message |
| Communication.CommandWireFormat | communication.py:42-47 | a command with single-digit arguments is six frame bytes (header, opcode digit, two argument digits, tail) and parses back to itself |
| Communication.FirstMoveToCentreFrame | first.py:127-129 | the first machine move to the centre is `"214"` and the bytes AA 55 32 31 34 9A |
| Decimal.DigitChar | first.py:127 | a digit character denotes its value |
| Decimal.NatToString | first.py:127 | `str(n)` is a nonempty string of digits without a leading zero |
| Decimal.NatToStringRoundTrip | first.py:123-127 | reading the digits of `str(n)` back gives `n` |
| Decimal.IntToString | first.py:127 | `str(n)` starts with a minus sign exactly when `n` is negative, the rest is digits, and they denote the magnitude of `n` |
| Decimal.SingleDigitString | first.py:127 | a position 0..9 prints as one character, so commands stay three characters |
| Capture.StripLeft | first.py:118 | only white space is removed, and the result starts with a visible character or is empty |
| Capture.StripRight | first.py:118 | only trailing white space is removed, the result ends with a visible character or is empty, and a text starting with a visible character keeps it |
| Capture.PythonInt | first.py:122-123 | `int()` succeeds only on a stripped text that starts with a digit or a sign |
| Capture.CapturedOutputNeverParses | first.py:110-123 | whatever the search prints after its first line, `int(output)` on the captured text fails |
| Capture.StripWithoutSpace | first.py:118 | `strip()` leaves a text without white space unchanged |
| Capture.DigitsParse | first.py:123 | `int()` on a nonempty run of decimal digits gives the value they denote |
| Capture.NegatedDigitsParse | first.py:123 | `int()` on a minus sign followed by digits gives the negated value |
| Capture.IntRoundTrip | first.py:123-127 | `int(str(n)) == n` for every integer `n`, so a printed position reads back as itself |
| Capture.ChosenCellParses | decision.py:232-234 | the intended capture, the chosen index alone, parses to the cell the search marked |
| HumanFirst.NextOrder | first.py:80-151 | the order of one pass: no observation changes nothing; a human line or a full board ends the pass before the machine moves; the counter rises exactly when the machine moves; an unparsable output sends nothing and skips the checks; otherwise `2{count}{pos}` is sent before the machine checks |
| HumanFirst.NextLog | first.py:105-129 | with no detected positions a pass sends nothing, or exactly one machine move carrying the new counter |
| HumanFirst.NextKeepsNumbering | first.py:105-129 | one pass keeps the sent moves numbered in increasing order within the counter |
| HumanFirst.NumberingStep | first.py:107-129 | appending a move numbered by a counter raised by one keeps the numbering ordered, and exact when the move is sent |
| HumanFirst.RunNumbersMoves | first.py:75-151 | over any run only machine moves are sent, their numbers increase, and they are 1, 2, 3, ... when every output parses |
| HumanFirst.InitialNumbering | first.py:72-75 | the game starts with counter 0 and nothing sent |
| HumanFirst.Game.constructor | first.py:72-75 | the empty board, no detected positions, counter 0, nothing sent |
| HumanFirst.Game.AfterHuman | first.py:93-151 | the checks after `humanmove`, then the machine's half, change the state as the transition says |
| HumanFirst.Game.MachineHalf | first.py:114-148 | the search, parse, send and machine checks change the state as the transition says |
| HumanFirst.Game.Step | first.py:80-151 | one pass of the loop in place equals the pure transition |
| HumanFirst.Game.Play | first.py:80-151 | the loop over a sequence of passes equals the pure run, stopping at the first game end |
| MachineFirst.OpeningState | second.py:70-82 | the program refuses a first move outside 0..8; otherwise that cell holds the machine mark, the counter is 1 and nothing has been sent |
| MachineFirst.NextOrder | second.py:90-169 | the order of one pass, as in first.py, except that an unparsable output ends the program |
| MachineFirst.NextLog | second.py:121-147 | with no detected positions a pass sends nothing, or one move carrying the new counter |
| MachineFirst.NumberingStep | second.py:123-143 | a pass keeps the k-th sent move numbered k+2 |
| MachineFirst.RunNumbersMoves | second.py:81-169 | over any run the k-th sent command is the machine move numbered k+2; after an abort the counter is one ahead of the moves sent |
| MachineFirst.OpeningNumbering | second.py:80-82 | after the first move the numbering invariant holds |
| MachineFirst.Game.constructor | second.py:65-66 | the empty board, no detected positions, nothing sent |
| MachineFirst.Game.Open | second.py:70-82 | a valid first move puts the game in the opening state; an invalid one changes nothing |
| MachineFirst.Game.AfterHuman | second.py:106-169 | the checks after `humanmove`, then the machine's half, change the state as the transition says |
| MachineFirst.Game.MachineHalf | second.py:131-169 | the search, parse, send and machine checks change the state as the transition says, ending the program on ValueError |
| MachineFirst.Game.Step | second.py:90-169 | one pass of the loop in place equals the pure transition |
| MachineFirst.Game.Play | second.py:90-169 | the loop over a sequence of passes equals the pure run |
| Rotated.Remap | rotated4.py:54-63 | the mapping keeps 0..8 within 0..8, never yields 7, and leaves unmapped values alone |
| Rotated.RemapNotInjective | rotated4.py:54-63 | 1 and 3 both map to 3, so the image of the nine cells misses 7 |
| Rotated.Prepare | rotated4.py:66-78 | with `global == 1` every field is remapped, otherwise the typed values are kept |
| Rotated.Sequencer.constructor | rotated4.py:37-78 | the positions are the prepared ones, the key count is 0 and nothing has been sent |
| Rotated.Sequencer.OnKey | rotated4.py:126-158 | Enter with count 0..3 sends the next command of `4xy, 4mn, 5ab, 5cd` and counts it; Enter at count 4 exits; other keys change nothing |
| Rotated.Sequencer.Run | rotated4.py:104-158 | the loop only adds to what was sent, and when it exits on Enter all four commands have gone out in order |

## Findings

| source | as written | input that shows it | evidently intended | confidence | as-written member | corrected member |
|---|---|---|---|---|---|---|
| first.py:110-133, second.py:126-165 | standard output is captured around `computermove(chess)`, which prints progress lines (decision.py:199 onward), and the whole captured text goes to `int()` | any board with an empty cell: the captured text starts with `[AI移动] 开始计算最优移动位置...` | the capture holds only the chosen index, so `int()` returns the cell the machine marked | high (not executed) | Capture.CapturedOutputNeverParses | Capture.ChosenCellParses |

As written, first.py therefore continues after every search without sending the machine's move. second.py stops after its first search.

The controllers take the parse outcome as an input of each pass. So they model both cases:
- the code as written (always a ValueError);
- the intended behaviour (the chosen cell).

## Left out

- Serial I/O is not modelled: opening the port, writing, and the read, receive and port-listing helpers. `SendMessage` returns the frame it would write, and the controllers record the commands handed to `send_message`.
- `send_message` catches every exception itself. So the transport errors that second.py's `except Exception` expects are never raised to it. That branch is unreachable and not modelled.
- Console output (`print`, `print_board`) is not modelled. It appears only where it is captured, as the text fed to `int()`.
- The camera and image processing (`capture_and_process_image` and the vision helpers): each pass takes an arbitrary observation instead. `detected_positions` is never filled by either program, so it stays the empty set.
- The captured text is not modelled character by character. `SearchOutput` fixes only its first line and leaves the rest arbitrary.
- Capture.PythonInt: does not accept underscores between digits or non-ASCII digits, which Python's `int()` does. No captured text reaches those cases, because it starts with `[`.
- Search.Value: the `depth` argument of `minimax` is not modelled, because it is only incremented and never read. The infinite starting values are modelled as -2 and 2, which are below and above every score.
- Search.ComputerMove: requires a forced first move in -9..8. Any other value makes Python raise IndexError.
- The board is a flat sequence of nine cells rather than a list of three rows. Cell (row, col) is index 3*row+col.
- `KeyboardInterrupt` and the `finally` clean-up of the main programs are not modelled.
- The printed `11{first_move}` line of second.py is not modelled, because it is only printed and never sent.
- The OpenCV drawing and window handling of rotated4.py are not modelled.
- Rotated.Sequencer.Run: states what has been sent when the loop finishes on Enter, but not the exact count when it stops on a camera failure or runs out of events.
- The key is taken as the already masked `waitKey(1) & 0xFF` value.
- rotated.py, first4.py, firstcenter.py and versionsecond.py are variants or vision helpers, and are not part of this model.
- Game-level claims such as "the machine never loses" are not modelled. They would need the search evaluated over the whole game tree inside the verifier.
