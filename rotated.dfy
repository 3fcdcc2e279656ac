/**
 * rotated4.py: eight positions typed in by the operator, optionally passed
 * through the rotated-board table, then sent as four commands, one per
 * Enter key: `4xy`, `4mn`, `5ab`, `5cd`; a fifth Enter ends the program.
 * The camera window, the drawing and the prompts are not modelled: the
 * typed values and the key codes are inputs.
 */
module Rotated {
  import opened Wrappers
  import opened Communication

  const EnterKey := 13

  /** The `mapping` table of rotated4.py. */
  const Mapping: map<int, int> := map[2 := 0, 5 := 1, 8 := 2, 1 := 3, 7 := 5, 0 := 6, 6 := 8]

  /** `mapping.get(p, p)`: the table's entry, or `p` itself when the table has none. */
  function Remap(p: int): (r: int)
    ensures 0 <= p <= 8 ==> 0 <= r <= 8
    ensures r != 7
    ensures p !in {0, 1, 2, 5, 6, 7, 8} ==> r == p
  {
    if p in Mapping then Mapping[p] else p
  }

  /** The table as written is not a bijection of 0..8: 1 and 3 both go to 3, and 7 is never reached. */
  lemma RemapNotInjective()
    ensures Remap(1) == Remap(3) == 3
    ensures forall p :: Remap(p) != 7
    ensures (set p | 0 <= p <= 8 :: Remap(p)) == {0, 1, 2, 3, 4, 5, 6, 8}
  {
    var image := set p | 0 <= p <= 8 :: Remap(p);
    assert Remap(2) == 0 && Remap(5) == 1 && Remap(8) == 2 && Remap(1) == 3;
    assert Remap(4) == 4 && Remap(7) == 5 && Remap(0) == 6 && Remap(6) == 8;
    assert 0 in image && 1 in image && 2 in image && 3 in image;
    assert 4 in image && 5 in image && 6 in image && 8 in image;
  }

  /** The eight typed positions: two white moves (x to y, m to n) and two black moves (a to b, c to d). */
  datatype Moves = Moves(x: int, y: int, m: int, n: int, a: int, b: int, c: int, d: int)

  /** `if high == 1`: every position is remapped on its own; otherwise all are kept. */
  function Prepare(high: int, typed: Moves): (r: Moves)
    ensures high != 1 ==> r == typed
    ensures high == 1 ==>
      && r.x == Remap(typed.x) && r.y == Remap(typed.y) && r.m == Remap(typed.m) && r.n == Remap(typed.n)
      && r.a == Remap(typed.a) && r.b == Remap(typed.b) && r.c == Remap(typed.c) && r.d == Remap(typed.d)
  {
    if high == 1 then
      Moves(Remap(typed.x), Remap(typed.y), Remap(typed.m), Remap(typed.n),
            Remap(typed.a), Remap(typed.b), Remap(typed.c), Remap(typed.d))
    else typed
  }

  /** The four commands, in the order the Enter presses send them. */
  function Sequence(mv: Moves): seq<Command> {
    [Command(RotatedWhiteMove, mv.x, mv.y), Command(RotatedWhiteMove, mv.m, mv.n),
     Command(RotatedBlackMove, mv.a, mv.b), Command(RotatedBlackMove, mv.c, mv.d)]
  }

  /** An event of the display loop: a frame with the key code `waitKey` returned, or a failed read. */
  datatype Event = Frame(key: int) | ReadFailed

  datatype Status = Waiting | Finished | CameraLost

  class Sequencer {
    var x: int
    var y: int
    var m: int
    var n: int
    var a: int
    var b: int
    var c: int
    var d: int
    var keyCount: int
    var sent: seq<Command>

    function Positions(): Moves
      reads this
    {
      Moves(x, y, m, n, a, b, c, d)
    }

    /** What the Enter presses so far have sent: the first `keyCount` commands. */
    ghost predicate Valid()
      reads this
    {
      0 <= keyCount <= 4 && sent == Sequence(Positions())[..keyCount]
    }

    /** The module-level code before the loop: read `high` and the positions, remap, `key_count = 0`. */
    constructor (high: int, typed: Moves)
      ensures Valid()
      ensures Positions() == Prepare(high, typed) && keyCount == 0 && sent == []
    {
      var prepared := Prepare(high, typed);
      x, y, m, n := prepared.x, prepared.y, prepared.m, prepared.n;
      a, b, c, d := prepared.a, prepared.b, prepared.c, prepared.d;
      keyCount := 0;
      sent := [];
    }

    /**
     * One key: Enter with `key_count` 0..3 sends the next command and
     * counts it; Enter after all four ends the program; any other key does
     * nothing.
     */
    method OnKey(key: int) returns (exit: bool)
      requires Valid()
      modifies this`keyCount, this`sent
      ensures Valid() && Positions() == old(Positions())
      ensures exit <==> key == EnterKey && old(keyCount) == 4
      ensures key == EnterKey && old(keyCount) < 4 ==>
        keyCount == old(keyCount) + 1 && sent == old(sent) + [Sequence(Positions())[old(keyCount)]]
      ensures !(key == EnterKey && old(keyCount) < 4) ==> keyCount == old(keyCount) && sent == old(sent)
    {
      exit := false;
      if key == EnterKey {
        if keyCount == 0 {
          sent := sent + [Command(RotatedWhiteMove, x, y)];
          keyCount := keyCount + 1;
        } else if keyCount == 1 {
          sent := sent + [Command(RotatedWhiteMove, m, n)];
          keyCount := keyCount + 1;
        } else if keyCount == 2 {
          sent := sent + [Command(RotatedBlackMove, a, b)];
          keyCount := keyCount + 1;
        } else if keyCount == 3 {
          sent := sent + [Command(RotatedBlackMove, c, d)];
          keyCount := keyCount + 1;
        } else {
          exit := true;
        }
      }
      assert Sequence(Positions())[..keyCount] == sent;
    }

    /**
     * The `while True` display loop over a finite run of events: it stops
     * when a frame cannot be read or at the fifth Enter; at that point all
     * four commands have gone out, in order.
     */
    method Run(events: seq<Event>) returns (status: Status)
      requires Valid()
      modifies this`keyCount, this`sent
      ensures Valid() && Positions() == old(Positions())
      ensures old(keyCount) <= keyCount && old(sent) <= sent
      ensures status == Finished ==> sent == Sequence(Positions()) && keyCount == 4
    {
      var i := 0;
      while i < |events|
        invariant Valid() && Positions() == old(Positions())
        invariant 0 <= i <= |events|
        invariant old(keyCount) <= keyCount && old(sent) <= sent
      {
        match events[i] {
          case ReadFailed =>
            return CameraLost;
          case Frame(key) =>
            var exit := OnKey(key);
            if exit {
              return Finished;
            }
        }
        i := i + 1;
      }
      return Waiting;
    }
  }
}
