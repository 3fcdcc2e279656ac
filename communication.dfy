/**
 * The frame construction of `send_message` in communication.py and the
 * command strings it carries.  A frame is two header bytes, the UTF-8 bytes
 * of the command string, and one trailer byte; the serial write that
 * follows is not part of this model.
 */
module Communication {
  import opened Wrappers
  import opened Decimal

  type Byte = x: int | 0 <= x < 256

  const FrameHeaderHigh: Byte := 0xAA
  const FrameHeaderLow: Byte := 0x55
  const FrameTail: Byte := 0x9A

  // ---------------------------------------------------------------------
  // UTF-8, as Python's str.encode('utf-8')

  /** The 1- to 4-byte UTF-8 encoding of one Unicode scalar value. */
  function EncodeChar(ch: char): (bs: seq<Byte>)
    ensures 1 <= |bs| <= 4
  {
    var cp := ch as int;
    if cp < 0x80 then [cp]
    else if cp < 0x800 then [0xC0 + cp / 0x40, 0x80 + cp % 0x40]
    else if cp < 0x1_0000 then
      [0xE0 + cp / 0x1000, 0x80 + (cp / 0x40) % 0x40, 0x80 + cp % 0x40]
    else
      [0xF0 + cp / 0x4_0000, 0x80 + (cp / 0x1000) % 0x40, 0x80 + (cp / 0x40) % 0x40, 0x80 + cp % 0x40]
  }

  function Utf8(s: string): seq<Byte> {
    if s == [] then [] else EncodeChar(s[0]) + Utf8(s[1..])
  }

  predicate IsContinuation(b: Byte) {
    0x80 <= b < 0xC0
  }

  /** The six payload bits of a continuation byte. */
  function Low6(b: Byte): int {
    b as int - 0x80
  }

  function ScalarOf(cp: int): Option<char> {
    if 0 <= cp < 0xD800 || 0xE000 <= cp < 0x11_0000 then Some(cp as char) else None
  }

  /** Decodes the first character of `bs` and says how many bytes it took. */
  function DecodeFirst(bs: seq<Byte>): (r: Option<(char, nat)>)
    requires bs != []
    ensures r.Some? ==> 1 <= r.value.1 <= 4 && r.value.1 <= |bs|
  {
    var b0 := bs[0] as int;
    if b0 < 0x80 then Some((b0 as char, 1))
    else if 0xC0 <= b0 < 0xE0 && |bs| >= 2 && IsContinuation(bs[1]) then
      var c := ScalarOf((b0 - 0xC0) * 0x40 + Low6(bs[1]));
      if c.Some? then Some((c.value, 2)) else None
    else if 0xE0 <= b0 < 0xF0 && |bs| >= 3 && IsContinuation(bs[1]) && IsContinuation(bs[2]) then
      var c := ScalarOf((b0 - 0xE0) * 0x1000 + Low6(bs[1]) * 0x40 + Low6(bs[2]));
      if c.Some? then Some((c.value, 3)) else None
    else if 0xF0 <= b0 < 0xF8 && |bs| >= 4 && IsContinuation(bs[1]) && IsContinuation(bs[2])
         && IsContinuation(bs[3]) then
      var c := ScalarOf((b0 - 0xF0) * 0x4_0000 + Low6(bs[1]) * 0x1000 + Low6(bs[2]) * 0x40 + Low6(bs[3]));
      if c.Some? then Some((c.value, 4)) else None
    else None
  }

  /** The receiving side of the encoding: bytes back to a string, if they are UTF-8. */
  function DecodeUtf8(bs: seq<Byte>): Option<string>
    decreases |bs|
  {
    if bs == [] then Some([])
    else match DecodeFirst(bs)
      case None => None
      case Some((ch, n)) =>
        match DecodeUtf8(bs[n..])
        case None => None
        case Some(rest) => Some([ch] + rest)
  }

  lemma DecodeEncodedChar(ch: char, rest: seq<Byte>)
    ensures DecodeFirst(EncodeChar(ch) + rest) == Some((ch, |EncodeChar(ch)|))
  {
    var cp := ch as int;
    var bs := EncodeChar(ch) + rest;
    if cp < 0x80 {
    } else if cp < 0x800 {
      assert (cp / 0x40) * 0x40 + cp % 0x40 == cp;
    } else if cp < 0x1_0000 {
      assert (cp / 0x1000) * 0x40 + (cp / 0x40) % 0x40 == cp / 0x40;
      assert (cp / 0x40) * 0x40 + cp % 0x40 == cp;
    } else {
      assert (cp / 0x4_0000) * 0x40 + (cp / 0x1000) % 0x40 == cp / 0x1000;
      assert (cp / 0x1000) * 0x40 + (cp / 0x40) % 0x40 == cp / 0x40;
      assert (cp / 0x40) * 0x40 + cp % 0x40 == cp;
    }
  }

  lemma {:induction false} Utf8RoundTrip(s: string)
    ensures DecodeUtf8(Utf8(s)) == Some(s)
  {
    if s != [] {
      var e := EncodeChar(s[0]);
      DecodeEncodedChar(s[0], Utf8(s[1..]));
      assert (e + Utf8(s[1..]))[|e|..] == Utf8(s[1..]);
      Utf8RoundTrip(s[1..]);
      assert [s[0]] + s[1..] == s;
    }
  }

  /** For a message of ASCII characters (the digit commands), each byte is the character's code. */
  lemma {:induction false} AsciiUtf8(s: string)
    requires forall k :: 0 <= k < |s| ==> s[k] as int < 0x80
    ensures |Utf8(s)| == |s|
    ensures forall k :: 0 <= k < |s| ==> Utf8(s)[k] == s[k] as int
  {
    if s != [] {
      AsciiUtf8(s[1..]);
    }
  }

  // ---------------------------------------------------------------------
  // Frames

  /** `0xAA 0x55 ++ utf8(message) ++ 0x9A`. */
  function Frame(message: string): seq<Byte> {
    [FrameHeaderHigh, FrameHeaderLow] + Utf8(message) + [FrameTail]
  }

  /** What a receiver does with a frame: check header and trailer, decode the payload. */
  function Unframe(frame: seq<Byte>): Option<string> {
    if |frame| >= 3 && frame[0] == FrameHeaderHigh && frame[1] == FrameHeaderLow
       && frame[|frame| - 1] == FrameTail
    then DecodeUtf8(frame[2..|frame| - 1])
    else None
  }

  /**
   * `send_message` up to the serial write: the frame is built by appending
   * the header bytes, extending by the message bytes and appending the tail.
   */
  method SendMessage(message: string) returns (frame: seq<Byte>)
    ensures |frame| == |Utf8(message)| + 3
    ensures frame[0] == 0xAA && frame[1] == 0x55 && frame[|frame| - 1] == 0x9A
    ensures frame[2..|frame| - 1] == Utf8(message)
    ensures frame == Frame(message)
  {
    var messageBytes := Utf8(message);
    frame := [];
    frame := frame + [FrameHeaderHigh];
    frame := frame + [FrameHeaderLow];
    frame := frame + messageBytes;
    frame := frame + [FrameTail];
  }

  /** Dropping the two header bytes and the tail recovers the message. */
  lemma FrameRoundTrip(message: string)
    ensures Unframe(Frame(message)) == Some(message)
  {
    var f := Frame(message);
    assert f[2..|f| - 1] == Utf8(message);
    Utf8RoundTrip(message);
  }

  // ---------------------------------------------------------------------
  // Commands: an opcode digit followed by two arguments

  datatype Opcode =
    | HumanPieceMove    // 1: start position, target position
    | MachinePieceMove  // 2: move number, target position
    | CheatReport       // 3: original board index, new board index
    | RotatedWhiteMove  // 4: start, target on the rotated board
    | RotatedBlackMove  // 5: start, target on the rotated board

  function OpcodeDigit(op: Opcode): int {
    match op
    case HumanPieceMove => 1
    case MachinePieceMove => 2
    case CheatReport => 3
    case RotatedWhiteMove => 4
    case RotatedBlackMove => 5
  }

  datatype Command = Command(op: Opcode, first: int, second: int)

  /** The command string, `f'{op}{first}{second}'`. */
  function Message(cmd: Command): (m: string)
    ensures |m| >= 3 && OpcodeOfDigit(m[0]) == Some(cmd.op)
    ensures 0 <= cmd.first <= 9 && 0 <= cmd.second <= 9 ==>
      |m| == 3 && m[1] as int - '0' as int == cmd.first && m[2] as int - '0' as int == cmd.second
  {
    [DigitChar(OpcodeDigit(cmd.op))] + IntToString(cmd.first) + IntToString(cmd.second)
  }

  function OpcodeOfDigit(ch: char): Option<Opcode> {
    match ch
    case '1' => Some(HumanPieceMove)
    case '2' => Some(MachinePieceMove)
    case '3' => Some(CheatReport)
    case '4' => Some(RotatedWhiteMove)
    case '5' => Some(RotatedBlackMove)
    case _ => None
  }

  /** Reads a three-digit command string back (the receiver knows the payload length from the opcode). */
  function ParseCommand(s: string): Option<Command> {
    if |s| == 3 && IsDigit(s[1]) && IsDigit(s[2]) && OpcodeOfDigit(s[0]).Some? then
      Some(Command(OpcodeOfDigit(s[0]).value, s[1] as int - '0' as int, s[2] as int - '0' as int))
    else None
  }

  /**
   * A command whose arguments are single digits goes on the wire as six
   * bytes: header, three ASCII digits, tail; and the receiver reads back
   * the same command.
   */
  lemma CommandWireFormat(cmd: Command)
    requires 0 <= cmd.first <= 9 && 0 <= cmd.second <= 9
    ensures Frame(Message(cmd)) ==
      [0xAA, 0x55, 0x30 + OpcodeDigit(cmd.op), 0x30 + cmd.first, 0x30 + cmd.second, 0x9A]
    ensures Unframe(Frame(Message(cmd))) == Some(Message(cmd))
    ensures ParseCommand(Message(cmd)) == Some(cmd)
  {
    SingleDigitString(cmd.first);
    SingleDigitString(cmd.second);
    var m := Message(cmd);
    assert m == [DigitChar(OpcodeDigit(cmd.op)), DigitChar(cmd.first), DigitChar(cmd.second)];
    AsciiUtf8(m);
    FrameRoundTrip(m);
  }

  /** The docstring example: the first machine move, to position 4, is `"214"`. */
  lemma FirstMoveToCentreFrame()
    ensures Message(Command(MachinePieceMove, 1, 4)) == "214"
    ensures Frame("214") == [0xAA, 0x55, 0x32, 0x31, 0x34, 0x9A]
  {
    CommandWireFormat(Command(MachinePieceMove, 1, 4));
  }
}
