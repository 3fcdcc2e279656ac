/**
 * The step both game programs take after a search: standard output is
 * redirected into a buffer around `computermove(chess)`, the buffer is
 * stripped, and `int(output)` is meant to give back the chosen cell.
 *
 * `computermove` prints its own progress lines while it searches, the
 * first of them before it looks at any cell, so what is captured is a log
 * and never a bare number.  `SearchOutput` and `CapturedOutputNeverParses`
 * state the code as written; `ChosenCellOutput` and `ChosenCellParses`
 * state what the capture is evidently for.
 */
module Capture {
  import opened Wrappers
  import opened Decimal
  import opened Rules
  import opened Search

  /** The characters `str.isspace()` accepts, which `strip()` and `int()` drop. */
  predicate IsSpace(ch: char) {
    || '\t' <= ch <= '\r'
    || '\U{1C}' <= ch <= '\U{1F}'
    || ch == ' ' || ch == '\U{85}' || ch == '\U{A0}' || ch == '\U{1680}'
    || '\U{2000}' <= ch <= '\U{200A}'
    || ch == '\U{2028}' || ch == '\U{2029}' || ch == '\U{202F}' || ch == '\U{205F}' || ch == '\U{3000}'
  }

  predicate AllDigits(s: string) {
    forall k :: 0 <= k < |s| ==> IsDigit(s[k])
  }

  /** `str.lstrip()`: drops leading white space. */
  function StripLeft(s: string): (t: string)
    ensures |t| <= |s| && t == s[|s| - |t|..]
    ensures t == [] || !IsSpace(t[0])
    ensures s != [] && !IsSpace(s[0]) ==> t == s
    ensures forall k :: 0 <= k < |s| - |t| ==> IsSpace(s[k])
  {
    if s != [] && IsSpace(s[0]) then
      var t := StripLeft(s[1..]);
      assert forall k :: 1 <= k < |s| - |t| ==> s[k] == s[1..][k - 1];
      t
    else s
  }

  /** `str.rstrip()`: drops trailing white space. */
  function StripRight(s: string): (t: string)
    ensures t <= s
    ensures t == [] || !IsSpace(t[|t| - 1])
    ensures s != [] && !IsSpace(s[0]) ==> t != []
    ensures forall k :: |t| <= k < |s| ==> IsSpace(s[k])
  {
    if s != [] && IsSpace(s[|s| - 1]) then StripRight(s[..|s| - 1]) else s
  }

  /** `str.strip()`. */
  function Strip(s: string): string {
    StripRight(StripLeft(s))
  }

  /** `int(s)` on a string: surrounding white space, an optional sign, then decimal digits. */
  function PythonInt(s: string): (r: Option<int>)
    ensures r.Some? ==> Strip(s) != [] && (IsDigit(Strip(s)[0]) || Strip(s)[0] in "+-")
  {
    var t := Strip(s);
    if t != [] && (t[0] == '-' || t[0] == '+') then
      var digits := t[1..];
      if digits != [] && AllDigits(digits) then
        Some(if t[0] == '-' then -DigitsValue(digits) else DigitsValue(digits))
      else None
    else if t != [] && AllDigits(t) then Some(DigitsValue(t))
    else None
  }

  /** The first line `computermove` prints when it has to search. */
  const SearchBanner: string := "[AI移动] 开始计算最优移动位置..."

  /**
   * What the buffer holds after `computermove(chess)` without a forced first
   * move: the banner, then `log`, the per-cell scores, the lines `full`
   * prints during the search and the final choice.
   */
  function SearchOutput(log: string): string {
    SearchBanner + "\n" + log
  }

  /** Whatever the search printed after its banner, `int(output)` raises ValueError. */
  lemma CapturedOutputNeverParses(log: string)
    ensures PythonInt(SearchOutput(log)) == None
  {
    var out := SearchOutput(log);
    assert out[0] == '[';
    var left := StripLeft(out);
    assert left == out;
    var t := StripRight(left);
    assert t[0] == '[';
  }

  /** The evidently intended capture: the chosen cell `row*3+col`, printed alone. */
  function ChosenCellOutput(b: Board): string
    requires BestMove(b).Some?
  {
    IntToString(BestMove(b).value)
  }

  /** A text without white space is left alone by `strip()`. */
  lemma StripWithoutSpace(s: string)
    requires forall k :: 0 <= k < |s| ==> !IsSpace(s[k])
    ensures Strip(s) == s
  {
    if s != [] {
      assert StripLeft(s) == s;
      assert !IsSpace(s[|s| - 1]);
    }
  }

  /** A nonempty run of digits parses to the value it denotes. */
  lemma DigitsParse(s: string)
    requires s != [] && AllDigits(s)
    ensures PythonInt(s) == Some(DigitsValue(s))
  {
    assert forall k :: 0 <= k < |s| ==> IsDigit(s[k]) && !IsSpace(s[k]);
    StripWithoutSpace(s);
  }

  /** A minus sign followed by a nonempty run of digits parses to the negated value. */
  lemma NegatedDigitsParse(s: string)
    requires s != [] && AllDigits(s)
    ensures PythonInt("-" + s) == Some(-DigitsValue(s))
  {
    var t := "-" + s;
    SignedHasNoSpace(s);
    StripWithoutSpace(t);
    assert t[1..] == s;
  }

  lemma SignedHasNoSpace(s: string)
    requires AllDigits(s)
    ensures forall k :: 0 <= k < |"-" + s| ==> !IsSpace(("-" + s)[k])
  {
    var t := "-" + s;
    forall k | 0 <= k < |t|
      ensures !IsSpace(t[k])
    {
      if k > 0 {
        assert t[k] == s[k - 1] && IsDigit(s[k - 1]);
      }
    }
  }

  /** `int(str(n)) == n` for every integer. */
  lemma IntRoundTrip(n: int)
    ensures PythonInt(IntToString(n)) == Some(n)
  {
    if n < 0 {
      var d := NatToString(-n);
      NatToStringRoundTrip(-n);
      NegatedDigitsParse(d);
    } else {
      NatToStringRoundTrip(n);
      DigitsParse(NatToString(n));
    }
  }

  /**
   * That text parses back to the chosen cell, which is the cell the search
   * marked, so `'2'+count+position` would then report the move actually made.
   */
  lemma ChosenCellParses(b: Board)
    requires BestMove(b).Some?
    ensures PythonInt(ChosenCellOutput(b)) == Some(BestMove(b).value)
    ensures ComputerMoveBoard(b, None)[BestMove(b).value] == Machine
    ensures |ChosenCellOutput(b)| == 1
  {
    var m := BestMove(b).value;
    IntRoundTrip(m);
    SingleDigitString(m);
    assert ComputerMoveBoard(b, None) == b[m := Machine];
  }
}
