/** day02: the bathroom keypad. A finger starts on the middle button of a
    3 by 3 keypad and follows each line's moves, ignoring a move off the
    edge; the button under it at the end of a line is that line's digit,
    and the next line starts from there. */
module Keypad {
  import opened Common

  /** `last_button`: the column and the row, both counted from 0. */
  type Button = (int, int)

  predicate OnPad(b: Button) {
    0 <= b.0 <= 2 && 0 <= b.1 <= 2
  }

  /** One `match c` arm: `U` and `D` move the row, `L` and `R` the column,
      clamped to the pad; any other letter has no arm but the panic. */
  function Press(b: Button, c: char): (r: Option<Button>)
    ensures r.Some? <==> c in "UDLR"
    ensures r.Some? && OnPad(b) ==> OnPad(r.value)
    ensures r.Some? && OnPad(b) ==> (r.value.0 == b.0 || r.value.1 == b.1)
    ensures r.Some? && OnPad(b) ==> -1 <= r.value.0 - b.0 <= 1 && -1 <= r.value.1 - b.1 <= 1
  {
    match c
    case 'U' => Some((b.0, Max(b.1 - 1, 0)))
    case 'D' => Some((b.0, Min(b.1 + 1, 2)))
    case 'L' => Some((Max(b.0 - 1, 0), b.1))
    case 'R' => Some((Min(b.0 + 1, 2), b.1))
    case _ => None
  }

  function Max(a: int, b: int): int { if a >= b then a else b }
  function Min(a: int, b: int): int { if a <= b then a else b }

  /** The button after every move of a line, or None at an unknown letter. */
  function WalkLine(b: Button, line: string): Option<Button>
    decreases |line|
  {
    if line == [] then Some(b)
    else
      match Press(b, line[0])
      case None => None
      case Some(next) => WalkLine(next, line[1..])
  }

  /** `last_button.0 + 1 + 3 * last_button.1`. */
  function Digit(b: Button): int {
    b.0 + 1 + 3 * b.1
  }

  /** What `main` prints from button b on: one digit per line, and the
      panic of the first line with an unknown letter, after the digits of
      the lines before it. */
  datatype Printed = Printed(digits: seq<int>, panic: Option<string>)

  function Code(b: Button, lines: seq<string>): Printed
    decreases |lines|
  {
    if lines == [] then Printed([], None)
    else
      match WalkLine(b, lines[0])
      case None => Printed([], Some("Unexpected direction"))
      case Some(next) =>
        var rest := Code(next, lines[1..]);
        Printed([Digit(next)] + rest.digits, rest.panic)
  }

  /** `main`: the walk from (1, 1) over every line. */
  method Solve(lines: seq<string>) returns (digits: seq<int>, panic: Option<string>)
    ensures Printed(digits, panic) == Code((1, 1), lines)
  {
    var lastButton: Button := (1, 1);
    digits := [];
    for k := 0 to |lines|
      invariant Code((1, 1), lines) == Printed(digits + Code(lastButton, lines[k..]).digits, Code(lastButton, lines[k..]).panic)
    {
      assert lines[k..][1..] == lines[k + 1..];
      var walked := Walk(lastButton, lines[k]);
      if walked.None? {
        return digits, Some("Unexpected direction");
      }
      lastButton := walked.value;
      assert digits + ([Digit(lastButton)] + Code(lastButton, lines[k + 1..]).digits)
        == (digits + [Digit(lastButton)]) + Code(lastButton, lines[k + 1..]).digits;
      digits := digits + [Digit(lastButton)];
    }
    assert lines[|lines|..] == [];
    assert digits + [] == digits;
    panic := None;
  }

  /** The inner `for` loop over the letters of one line. */
  method Walk(start: Button, line: string) returns (r: Option<Button>)
    ensures r == WalkLine(start, line)
  {
    var lastButton := start;
    for k := 0 to |line|
      invariant WalkLine(lastButton, line[k..]) == WalkLine(start, line)
    {
      assert line[k..][1..] == line[k + 1..];
      match line[k]
      case 'U' => lastButton := (lastButton.0, Max(lastButton.1 - 1, 0));
      case 'D' => lastButton := (lastButton.0, Min(lastButton.1 + 1, 2));
      case 'L' => lastButton := (Max(lastButton.0 - 1, 0), lastButton.1);
      case 'R' => lastButton := (Min(lastButton.0 + 1, 2), lastButton.1);
      case _ => return None;
    }
    assert line[|line|..] == [];
    r := Some(lastButton);
  }

  // ---------------------------------------------------------------------
  // Properties

  /** A line never takes the finger off the pad. */
  lemma {:induction false} WalkStaysOnPad(b: Button, line: string)
    requires OnPad(b) && WalkLine(b, line).Some?
    ensures OnPad(WalkLine(b, line).value)
    decreases |line|
  {
    if line != [] {
      WalkStaysOnPad(Press(b, line[0]).value, line[1..]);
    }
  }

  /** A line walks to the end exactly when every letter is a direction. */
  lemma {:induction false} WalkDefined(b: Button, line: string)
    ensures WalkLine(b, line).Some? <==> forall k :: 0 <= k < |line| ==> line[k] in "UDLR"
    decreases |line|
  {
    if line != [] {
      if Press(b, line[0]).Some? {
        WalkDefined(Press(b, line[0]).value, line[1..]);
        assert forall k :: 1 <= k < |line| ==> line[1..][k - 1] == line[k];
      }
    }
  }

  /** The pad as the puzzle draws it: rows 1 2 3, 4 5 6 and 7 8 9. */
  const Pad: seq<seq<int>> := [[1, 2, 3], [4, 5, 6], [7, 8, 9]]

  /** The printed digit is the label of the button under the finger, so it
      lies in 1 to 9 and tells the button apart. */
  lemma DigitIsLabel(b: Button)
    requires OnPad(b)
    ensures Digit(b) == Pad[b.1][b.0] && 1 <= Digit(b) <= 9
    ensures forall c :: OnPad(c) && Digit(c) == Digit(b) ==> c == b
  {
  }

  /** One digit per line until the first bad line, which panics, and each
      digit is on the pad. */
  lemma {:induction false} CodeMeaning(b: Button, lines: seq<string>)
    requires OnPad(b)
    ensures |Code(b, lines).digits| <= |lines|
    ensures Code(b, lines).panic.None? <==> |Code(b, lines).digits| == |lines|
    ensures forall i :: 0 <= i < |Code(b, lines).digits| ==> 1 <= Code(b, lines).digits[i] <= 9
    decreases |lines|
  {
    if lines != [] && WalkLine(b, lines[0]).Some? {
      var next := WalkLine(b, lines[0]).value;
      WalkStaysOnPad(b, lines[0]);
      DigitIsLabel(next);
      CodeMeaning(next, lines[1..]);
      var rest := Code(next, lines[1..]);
      assert Code(b, lines) == Printed([Digit(next)] + rest.digits, rest.panic);
    }
  }

  /** The position carries over from line to line: the digit of line n is
      that of the button the walk over the first n lines ends on. */
  lemma {:induction false} CodeCarriesOver(b: Button, lines: seq<string>)
    ensures |Code(b, lines).digits| <= |lines|
    ensures forall n :: 0 < n <= |Code(b, lines).digits| ==>
      Position(b, lines[..n]).Some? && Code(b, lines).digits[n - 1] == Digit(Position(b, lines[..n]).value)
    decreases |lines|
  {
    if lines != [] && WalkLine(b, lines[0]).Some? {
      var next := WalkLine(b, lines[0]).value;
      CodeCarriesOver(next, lines[1..]);
      var rest := Code(next, lines[1..]);
      assert Code(b, lines).digits == [Digit(next)] + rest.digits;
      forall n | 0 < n <= |Code(b, lines).digits|
        ensures Position(b, lines[..n]).Some? && Code(b, lines).digits[n - 1] == Digit(Position(b, lines[..n]).value)
      {
        PositionFirst(b, lines, n);
        if n == 1 {
          assert lines[1..1] == [];
        } else {
          assert Code(b, lines).digits[n - 1] == rest.digits[n - 2];
          assert lines[1..][..n - 1] == lines[1..n];
        }
      }
    }
  }

  /** The button after a sequence of lines. */
  function Position(b: Button, lines: seq<string>): Option<Button>
    decreases |lines|
  {
    if lines == [] then Some(b)
    else
      match WalkLine(b, lines[0])
      case None => None
      case Some(next) => Position(next, lines[1..])
  }

  lemma PositionFirst(b: Button, lines: seq<string>, n: nat)
    requires 1 <= n <= |lines| && WalkLine(b, lines[0]).Some?
    ensures Position(b, lines[..n]) == Position(WalkLine(b, lines[0]).value, lines[1..n])
  {
    assert lines[..n][1..] == lines[1..n];
  }

  /** The sample from the puzzle: `ULL`, `RRDDD`, `LURDL`, `UUUUD` give
      1985. */
  lemma ExampleSample()
    ensures Code((1, 1), ["ULL", "RRDDD", "LURDL", "UUUUD"]) == Printed([1, 9, 8, 5], None)
  {
    var lines := ["ULL", "RRDDD", "LURDL", "UUUUD"];
    SampleLines();
    assert lines[1..][1..][1..][1..] == [];
    assert Code((1, 2), lines[1..][1..][1..]) == Printed([5], None);
    assert Code((2, 2), lines[1..][1..]) == Printed([8, 5], None);
    assert Code((0, 0), lines[1..]) == Printed([9, 8, 5], None);
  }

  lemma SampleLines()
    ensures WalkLine((1, 1), "ULL") == Some((0, 0))
    ensures WalkLine((0, 0), "RRDDD") == Some((2, 2))
    ensures WalkLine((2, 2), "LURDL") == Some((1, 2))
    ensures WalkLine((1, 2), "UUUUD") == Some((1, 1))
  {
    SampleWalk((1, 1), "ULL", [(1, 0), (0, 0), (0, 0)]);
    SampleWalk((0, 0), "RRDDD", [(1, 0), (2, 0), (2, 1), (2, 2), (2, 2)]);
    SampleWalk((2, 2), "LURDL", [(1, 2), (1, 1), (2, 1), (2, 2), (1, 2)]);
    SampleWalk((1, 2), "UUUUD", [(1, 1), (1, 0), (1, 0), (1, 0), (1, 1)]);
  }

  /** A walk whose every press lands on the next listed button ends on the
      last one. */
  lemma {:induction false} SampleWalk(b: Button, line: string, trail: seq<Button>)
    requires |trail| == |line| > 0
    requires Press(b, line[0]) == Some(trail[0])
    requires forall k :: 0 < k < |line| ==> Press(trail[k - 1], line[k]) == Some(trail[k])
    ensures WalkLine(b, line) == Some(trail[|trail| - 1])
    decreases |line|
  {
    if |line| > 1 {
      forall k | 0 < k < |line| - 1
        ensures Press(trail[1..][k - 1], line[1..][k]) == Some(trail[1..][k])
      {
        assert Press(trail[k], line[k + 1]) == Some(trail[k + 1]);
      }
      SampleWalk(trail[0], line[1..], trail[1..]);
    }
  }
}
