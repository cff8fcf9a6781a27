/** day21: the password scrambler. Each instruction line rearranges the
    password's characters; the password keeps its length throughout. */
module Scrambling {
  import opened Common
  import opened Text
  import opened Modular

  datatype Operation =
    | SwapPosition(first: nat, second: nat)
    | SwapLetter(a: char, b: char)
    | RotateLeft(steps: nat)
    | RotateRight(steps: nat)
    | RotateBased(letter: char)
    | Reverse(start: nat, end: nat)
    | Move(from: nat, to: nat)

  /** `components[k].chars().last().unwrap()`: tokens are never empty, so
      only a missing token panics. */
  function LastCharAt(tokens: seq<string>, k: nat): (r: Result<char>)
    requires forall i :: 0 <= i < |tokens| ==> tokens[i] != []
    ensures r.Ok? <==> k < |tokens|
    ensures r.Ok? ==> r.value == Last(tokens[k])
  {
    if k < |tokens| then Ok(Last(tokens[k])) else Panic("index out of bounds")
  }

  /** The decoding of one line by `match components[0]` and, within
      `rotate`, by `components[1]`: "based" reads the letter from token 6,
      "right" rotates right, and any other word rotates left. */
  function ParseOperation(line: string): (r: Result<Operation>)
    ensures var t := SplitWhitespace(line);
      r.Ok? ==> |t| >= 2 && t[0] in {"swap", "rotate", "reverse", "move"}
    ensures var t := SplitWhitespace(line);
      |t| >= 2 && t[0] == "swap" && t[1] !in {"position", "letter"} ==> r.Panic?
    ensures var t := SplitWhitespace(line);
      |t| >= 2 && t[0] == "swap" && t[1] == "position" ==>
        (r.Ok? <==> |t| >= 6 && ParseUsize(t[2]).Some? && ParseUsize(t[5]).Some?)
        && (r.Ok? ==> r.value == SwapPosition(ParseUsize(t[2]).value, ParseUsize(t[5]).value))
    ensures var t := SplitWhitespace(line);
      |t| >= 2 && t[0] == "swap" && t[1] == "letter" ==>
        (r.Ok? <==> |t| >= 6)
        && (r.Ok? ==> r.value == SwapLetter(Last(t[2]), Last(t[5])))
    ensures var t := SplitWhitespace(line);
      |t| >= 2 && t[0] == "rotate" && t[1] == "based" ==>
        (r.Ok? <==> |t| >= 7)
        && (r.Ok? ==> r.value == RotateBased(Last(t[6])))
    ensures var t := SplitWhitespace(line);
      |t| >= 2 && t[0] == "rotate" && t[1] == "right" ==>
        (r.Ok? <==> |t| >= 3 && ParseUsize(t[2]).Some?)
        && (r.Ok? ==> r.value == RotateRight(ParseUsize(t[2]).value))
    ensures var t := SplitWhitespace(line);
      |t| >= 2 && t[0] == "rotate" && t[1] != "based" && t[1] != "right" ==>
        (r.Ok? <==> |t| >= 3 && ParseUsize(t[2]).Some?)
        && (r.Ok? ==> r.value == RotateLeft(ParseUsize(t[2]).value))
    ensures var t := SplitWhitespace(line);
      |t| > 0 && t[0] == "reverse" ==>
        (r.Ok? <==> |t| >= 5 && ParseUsize(t[2]).Some? && ParseUsize(t[4]).Some?)
        && (r.Ok? ==> r.value == Reverse(ParseUsize(t[2]).value, ParseUsize(t[4]).value))
    ensures var t := SplitWhitespace(line);
      |t| > 0 && t[0] == "move" ==>
        (r.Ok? <==> |t| >= 6 && ParseUsize(t[2]).Some? && ParseUsize(t[5]).Some?)
        && (r.Ok? ==> r.value == Move(ParseUsize(t[2]).value, ParseUsize(t[5]).value))
  {
    var tokens := SplitWhitespace(line);
    if |tokens| == 0 then Panic("index out of bounds")
    else if tokens[0] == "swap" then
      match Token(tokens, 1)
      case Panic(why) => Panic(why)
      case Ok(kind) =>
        if kind == "position" then
          match UsizeAt(tokens, 2)
          case Panic(why) => Panic(why)
          case Ok(first) => MapResult(UsizeAt(tokens, 5), (second: nat) => SwapPosition(first, second))
        else if kind == "letter" then
          match LastCharAt(tokens, 2)
          case Panic(why) => Panic(why)
          case Ok(a) => MapResult(LastCharAt(tokens, 5), (b: char) => SwapLetter(a, b))
        else Panic("Unexpected swap")
    else if tokens[0] == "rotate" then
      match Token(tokens, 1)
      case Panic(why) => Panic(why)
      case Ok(kind) =>
        if kind == "based" then MapResult(LastCharAt(tokens, 6), (c: char) => RotateBased(c))
        else if kind == "right" then MapResult(UsizeAt(tokens, 2), (n: nat) => RotateRight(n))
        else MapResult(UsizeAt(tokens, 2), (n: nat) => RotateLeft(n))
    else if tokens[0] == "reverse" then
      match UsizeAt(tokens, 2)
      case Panic(why) => Panic(why)
      case Ok(start) => MapResult(UsizeAt(tokens, 4), (end: nat) => Reverse(start, end))
    else if tokens[0] == "move" then
      match UsizeAt(tokens, 2)
      case Panic(why) => Panic(why)
      case Ok(from) => MapResult(UsizeAt(tokens, 5), (to: nat) => Move(from, to))
    else Panic("Unexpected instruction")
  }

  /** The words of an operation in the puzzle's wording. */
  function Tokens(op: Operation): seq<string> {
    match op
    case SwapPosition(x, y) => ["swap", "position", ShowNat(x), "with", "position", ShowNat(y)]
    case SwapLetter(a, b) => ["swap", "letter", [a], "with", "letter", [b]]
    case RotateLeft(n) => ["rotate", "left", ShowNat(n), "steps"]
    case RotateRight(n) => ["rotate", "right", ShowNat(n), "steps"]
    case RotateBased(c) => ["rotate", "based", "on", "position", "of", "letter", [c]]
    case Reverse(x, y) => ["reverse", "positions", ShowNat(x), "through", ShowNat(y)]
    case Move(x, y) => ["move", "position", ShowNat(x), "to", "position", ShowNat(y)]
  }

  /** The operation's line: its words separated by single spaces. */
  function Show(op: Operation): string {
    Join(Tokens(op), " ")
  }

  /** The numbers of an operation fit a usize and its letters are not
      whitespace. */
  predicate Writable(op: Operation) {
    match op
    case SwapPosition(x, y) => x <= USIZE_MAX && y <= USIZE_MAX
    case SwapLetter(a, b) => !IsWhitespace(a) && !IsWhitespace(b)
    case RotateLeft(n) => n <= USIZE_MAX
    case RotateRight(n) => n <= USIZE_MAX
    case RotateBased(c) => !IsWhitespace(c)
    case Reverse(x, y) => x <= USIZE_MAX && y <= USIZE_MAX
    case Move(x, y) => x <= USIZE_MAX && y <= USIZE_MAX
  }

  /** Every writable operation is read back from its puzzle wording: the
      first two words decide the constructor, and the numbers and letters
      are taken from the positions the program reads. */
  lemma ParseShow(op: Operation)
    requires Writable(op)
    ensures ParseOperation(Show(op)) == Ok(op)
  {
    TokensAreWords(op);
    SplitJoinedTokens(Tokens(op));
    ParseTokens(Show(op), op);
  }

  lemma NumberWord(n: nat)
    requires n <= USIZE_MAX
    ensures ShowNat(n) != [] && NoWhitespace(ShowNat(n)) && ParseUsize(ShowNat(n)) == Some(n)
  {
    ShowNatToken(n);
    ParseShowNat(n, USIZE_MAX);
  }

  /** Non-empty words without whitespace, as `split_whitespace` yields them. */
  predicate Words(ws: seq<string>) {
    forall k :: 0 <= k < |ws| ==> ws[k] != [] && NoWhitespace(ws[k])
  }

  lemma TokensAreWords(op: Operation)
    requires Writable(op)
    ensures Words(Tokens(op))
  {
    match op
    case SwapPosition(x, y) => SwapPositionWords(x, y);
    case SwapLetter(a, b) => SwapLetterWords(a, b);
    case RotateLeft(n) => RotateLeftWords(n);
    case RotateRight(n) => RotateRightWords(n);
    case RotateBased(c) => RotateBasedWords(c);
    case Reverse(x, y) => ReverseWords(x, y);
    case Move(x, y) => MoveWords(x, y);
  }

  lemma SwapPositionWords(x: nat, y: nat)
    requires x <= USIZE_MAX && y <= USIZE_MAX
    ensures Words(Tokens(SwapPosition(x, y)))
  {
    NumberWord(x);
    NumberWord(y);
  }

  lemma SwapLetterWords(a: char, b: char)
    requires !IsWhitespace(a) && !IsWhitespace(b)
    ensures Words(Tokens(SwapLetter(a, b)))
  {
  }

  lemma RotateLeftWords(n: nat)
    requires n <= USIZE_MAX
    ensures Words(Tokens(RotateLeft(n)))
  {
    NumberWord(n);
  }

  lemma RotateRightWords(n: nat)
    requires n <= USIZE_MAX
    ensures Words(Tokens(RotateRight(n)))
  {
    NumberWord(n);
  }

  lemma RotateBasedWords(c: char)
    requires !IsWhitespace(c)
    ensures Words(Tokens(RotateBased(c)))
  {
  }

  lemma ReverseWords(x: nat, y: nat)
    requires x <= USIZE_MAX && y <= USIZE_MAX
    ensures Words(Tokens(Reverse(x, y)))
  {
    NumberWord(x);
    NumberWord(y);
  }

  lemma MoveWords(x: nat, y: nat)
    requires x <= USIZE_MAX && y <= USIZE_MAX
    ensures Words(Tokens(Move(x, y)))
  {
    NumberWord(x);
    NumberWord(y);
  }

  /** A line whose words are those of a writable operation parses to it. */
  lemma ParseTokens(line: string, op: Operation)
    requires Writable(op) && SplitWhitespace(line) == Tokens(op)
    ensures ParseOperation(line) == Ok(op)
  {
    match op
    case SwapPosition(x, y) =>
      NumberWord(x);
      NumberWord(y);
    case RotateLeft(n) => NumberWord(n);
    case RotateRight(n) => NumberWord(n);
    case Reverse(x, y) =>
      NumberWord(x);
      NumberWord(y);
    case Move(x, y) =>
      NumberWord(x);
      NumberWord(y);
    case _ =>
  }

  // ---------------------------------------------------------------------
  // The operations on the password

  /** `password[first] = password[second]; password[second] = temp`. */
  function SwapPositions(p: seq<char>, x: nat, y: nat): (r: seq<char>)
    requires x < |p| && y < |p|
    ensures |r| == |p| && multiset(r) == multiset(p)
    ensures r[x] == p[y] && r[y] == p[x]
    ensures forall i :: 0 <= i < |p| && i != x && i != y ==> r[i] == p[i]
  {
    var temp := p[x];
    var q := p[x := p[y]];
    assert multiset(q) == multiset(p) - multiset{p[x]} + multiset{p[y]};
    q[y := temp]
  }

  function SwapChar(c: char, a: char, b: char): char {
    if c == a then b else if c == b then a else c
  }

  /** The `iter_mut` pass of `swap letter`: every a becomes b and every b
      becomes a. */
  function SwapLetters(p: seq<char>, a: char, b: char): (r: seq<char>)
    ensures |r| == |p|
  {
    if p == [] then [] else [SwapChar(p[0], a, b)] + SwapLetters(p[1..], a, b)
  }

  /** The swap acts letter by letter. */
  lemma {:induction false} SwapLettersAt(p: seq<char>, a: char, b: char, i: nat)
    requires i < |p|
    ensures SwapLetters(p, a, b)[i] == SwapChar(p[i], a, b)
    decreases |p|
  {
    if i > 0 {
      SwapLettersAt(p[1..], a, b, i - 1);
    }
  }

  /** `into_iter().cycle().skip(k).take(len)` for k < len. */
  function Rotated(p: seq<char>, k: nat): (r: seq<char>)
    requires k < |p|
    ensures |r| == |p| && multiset(r) == multiset(p)
  {
    assert p == p[..k] + p[k..];
    assert multiset(p[k..] + p[..k]) == multiset(p[k..]) + multiset(p[..k]);
    p[k..] + p[..k]
  }

  /** Position i of the rotation holds old[(i + k) mod len]. */
  lemma RotatedAt(p: seq<char>, k: nat, i: nat)
    requires k < |p| && i < |p|
    ensures Rotated(p, k)[i] == p[(i + k) % |p|]
  {
    ModSmall(i + k, |p|);
  }

  /** `rev()` of a slice. */
  function Reversed(s: seq<char>): (r: seq<char>)
    ensures |r| == |s| && forall i :: 0 <= i < |s| ==> r[i] == s[|s| - 1 - i]
  {
    seq(|s|, i requires 0 <= i < |s| => s[|s| - 1 - i])
  }

  /** Reversal keeps the letters. */
  lemma {:induction false} ReversedKeepsLetters(s: seq<char>)
    ensures multiset(Reversed(s)) == multiset(s)
    decreases |s|
  {
    if s != [] {
      ReversedKeepsLetters(s[1..]);
      assert Reversed(s) == Reversed(s[1..]) + [s[0]];
      assert s == [s[0]] + s[1..];
    }
  }

  /** Reversing twice gives the slice back. */
  lemma ReversedTwice(s: seq<char>)
    ensures Reversed(Reversed(s)) == s
  {
  }

  /** `take(lo)`, the slice [lo, hi) reversed, then `skip(hi)`. */
  function ReverseRange(p: seq<char>, lo: nat, hi: nat): (r: seq<char>)
    requires lo <= hi <= |p|
    ensures |r| == |p| && multiset(r) == multiset(p)
    ensures r[..lo] == p[..lo] && r[hi..] == p[hi..] && r[lo..hi] == Reversed(p[lo..hi])
  {
    assert p == p[..lo] + p[lo..hi] + p[hi..];
    ReversedKeepsLetters(p[lo..hi]);
    var r := p[..lo] + Reversed(p[lo..hi]) + p[hi..];
    assert r[..lo] == p[..lo];
    assert r[lo..hi] == Reversed(p[lo..hi]);
    assert r[hi..] == p[hi..];
    r
  }

  /** `remove(x)` then `insert(y, removed)`, for indices that do not panic. */
  function MoveChar(p: seq<char>, x: nat, y: nat): (r: seq<char>)
    requires x < |p| && y < |p|
    ensures |r| == |p|
    ensures multiset(r) == multiset(p)
    ensures r[y] == p[x]
    ensures r[..y] + r[y + 1..] == p[..x] + p[x + 1..]
  {
    var removed := p[..x] + p[x + 1..];
    assert p == p[..x] + [p[x]] + p[x + 1..];
    assert removed == removed[..y] + removed[y..];
    var r := removed[..y] + [p[x]] + removed[y..];
    assert r[..y] == removed[..y];
    assert r[y + 1..] == removed[y..];
    assert multiset(r) == multiset(removed[..y]) + multiset{p[x]} + multiset(removed[y..]);
    assert multiset(removed) == multiset(removed[..y]) + multiset(removed[y..]);
    assert multiset(removed) == multiset(p[..x]) + multiset(p[x + 1..]);
    assert multiset(p) == multiset(p[..x]) + multiset{p[x]} + multiset(p[x + 1..]);
    assert multiset(r) == multiset(removed) + multiset{p[x]};
    assert multiset(p) == multiset(removed) + multiset{p[x]};
    r
  }

  /** `position(|c| *c == test_char)`. */
  function FirstIndex(p: seq<char>, c: char): (i: nat)
    requires c in p
    ensures i < |p| && p[i] == c && c !in p[..i]
  {
    if p[0] == c then 0 else FirstIndex(p[1..], c) + 1
  }

  /** The rotate-left amount the program computes for each rotation. A
      right rotation by n is a left one by (len - n mod len) mod len; a
      letter-based one rotates right by 1 + the first index of the letter,
      plus 1 when that index is at least 4. The remainder by `len` panics
      on an empty password, and an absent letter panics in `unwrap`. */
  function LeftAmount(p: seq<char>, op: Operation): (r: Result<nat>)
    requires op.RotateLeft? || op.RotateRight? || op.RotateBased?
    ensures r.Ok? ==> r.value < |p|
    ensures r.Ok? <==> |p| > 0 && (op.RotateBased? ==> op.letter in p)
  {
    if op.RotateBased? && op.letter !in p then Panic("called `Option::unwrap()` on a `None` value")
    else if |p| == 0 then Panic("attempt to calculate the remainder with a divisor of zero")
    else
      var n: nat :=
        if op.RotateBased? then
          var i := FirstIndex(p, op.letter);
          if 1 + i >= 5 then 1 + i + 1 else 1 + i
        else op.steps;
      var k: nat := if op.RotateLeft? then n % |p| else (|p| - n % |p|) % |p|;
      Ok(k)
  }

  /** One scramble operation. Every path that Rust would abort on yields
      `Panic`: an index out of range, `remove`/`insert` past the end, or the
      `end + 1 - start` subtraction going below zero. */
  function Apply(p: seq<char>, op: Operation): (r: Result<seq<char>>)
    ensures r.Ok? ==> |r.value| == |p|
    ensures r.Ok? && !op.SwapLetter? ==> multiset(r.value) == multiset(p)
  {
    match op
    case SwapPosition(x, y) =>
      if x < |p| && y < |p| then Ok(SwapPositions(p, x, y)) else Panic("index out of bounds")
    case SwapLetter(a, b) => Ok(SwapLetters(p, a, b))
    case Reverse(start, end) =>
      if end + 1 > USIZE_MAX || end + 1 < start then Panic("attempt to subtract with overflow")
      else
        var lo := if start < |p| then start else |p|;
        var hi := if end + 1 < |p| then end + 1 else |p|;
        Ok(ReverseRange(p, lo, hi))
    case Move(x, y) =>
      if x >= |p| then Panic("removal index out of bounds")
      else if y > |p| - 1 then Panic("insertion index out of bounds")
      else Ok(MoveChar(p, x, y))
    case _ =>
      match LeftAmount(p, op)
      case Panic(why) => Panic(why)
      case Ok(k) => Ok(Rotated(p, k))
  }

  function ApplyLine(p: seq<char>, line: string): (r: Result<seq<char>>)
    ensures r.Ok? ==> |r.value| == |p|
  {
    match ParseOperation(line)
    case Panic(why) => Panic(why)
    case Ok(op) => Apply(p, op)
  }

  /** The password after the given lines, applied in order; the first line
      that panics ends the run. */
  function Scrambled(password: seq<char>, lines: seq<string>): (r: Result<seq<char>>)
    ensures r.Ok? ==> |r.value| == |password|
  {
    if lines == [] then Ok(password)
    else
      match Scrambled(password, lines[..|lines| - 1])
      case Panic(why) => Panic(why)
      case Ok(q) => ApplyLine(q, lines[|lines| - 1])
  }

  // ---------------------------------------------------------------------
  // The loop of `main`, on a mutable character array

  /** `password.iter_mut().for_each(...)` for `swap letter`. */
  method SwapLettersInPlace(password: array<char>, a: char, b: char)
    modifies password
    ensures password[..] == SwapLetters(old(password[..]), a, b)
  {
    for i := 0 to password.Length
      invariant forall k :: 0 <= k < i ==> password[k] == SwapChar(old(password[k]), a, b)
      invariant forall k :: i <= k < password.Length ==> password[k] == old(password[k])
    {
      if password[i] == a {
        password[i] := b;
      } else if password[i] == b {
        password[i] := a;
      }
    }
    forall k | 0 <= k < password.Length ensures password[k] == SwapLetters(old(password[..]), a, b)[k] {
      SwapLettersAt(old(password[..]), a, b, k);
    }
  }

  /** The index swap of `swap position`. */
  method SwapPositionsInPlace(password: array<char>, x: nat, y: nat)
    requires x < password.Length && y < password.Length
    modifies password
    ensures password[..] == SwapPositions(old(password[..]), x, y)
  {
    password[x], password[y] := password[y], password[x];
  }

  /** One instruction on the password array: the swaps change it in place;
      a rotation, reversal or move builds a new one, as the Rust code does
      with `collect_vec` (the remove/insert pair is taken as a whole). */
  method ApplyInPlace(password: array<char>, op: Operation) returns (r: Result<array<char>>)
    modifies password
    ensures Apply(old(password[..]), op) == if r.Ok? then Ok(r.value[..]) else Panic(r.reason)
    ensures r.Ok? ==> r.value == password || fresh(r.value)
  {
    if op.SwapPosition? {
      if op.first >= password.Length || op.second >= password.Length {
        return Panic("index out of bounds");
      }
      SwapPositionsInPlace(password, op.first, op.second);
      r := Ok(password);
    } else if op.SwapLetter? {
      SwapLettersInPlace(password, op.a, op.b);
      r := Ok(password);
    } else {
      var next := Apply(password[..], op);
      if next.Panic? {
        return Panic(next.reason);
      }
      var built := new char[|next.value|](i requires 0 <= i < |next.value| => next.value[i]);
      assert built[..] == next.value;
      r := Ok(built);
    }
  }

  /** The `for instruction in lines` loop of `main`. */
  method Scramble(initial: seq<char>, lines: seq<string>) returns (r: Result<seq<char>>)
    ensures r == Scrambled(initial, lines)
  {
    var password := new char[|initial|](i requires 0 <= i < |initial| => initial[i]);
    assert password[..] == initial;
    for n := 0 to |lines|
      invariant fresh(password)
      invariant Scrambled(initial, lines[..n]) == Ok(password[..])
    {
      ScrambledNext(initial, lines, n, password[..]);
      var op := ParseOperation(lines[n]);
      if op.Panic? {
        PanicPersists(initial, lines, n + 1);
        return Panic(op.reason);
      }
      var next := ApplyInPlace(password, op.value);
      if next.Panic? {
        PanicPersists(initial, lines, n + 1);
        return Panic(next.reason);
      }
      password := next.value;
    }
    assert lines[..|lines|] == lines;
    r := Ok(password[..]);
  }

  lemma ScrambledNext(initial: seq<char>, lines: seq<string>, n: nat, q: seq<char>)
    requires n < |lines| && Scrambled(initial, lines[..n]) == Ok(q)
    ensures Scrambled(initial, lines[..n + 1]) == ApplyLine(q, lines[n])
  {
    assert lines[..n + 1][..n] == lines[..n];
  }

  /** Once a line panics, the run is over: later lines change nothing. */
  lemma {:induction false} PanicPersists(initial: seq<char>, lines: seq<string>, n: nat)
    requires n <= |lines| && Scrambled(initial, lines[..n]).Panic?
    ensures Scrambled(initial, lines) == Scrambled(initial, lines[..n])
    decreases |lines| - n
  {
    if n < |lines| {
      assert lines[..n + 1][..n] == lines[..n];
      PanicPersists(initial, lines, n + 1);
    } else {
      assert lines[..n] == lines;
    }
  }

  // ---------------------------------------------------------------------
  // Properties

  /** The count of a letter's image after the swap is its count before. */
  lemma {:induction false} SwapLettersCount(p: seq<char>, a: char, b: char, c: char)
    ensures multiset(SwapLetters(p, a, b))[SwapChar(c, a, b)] == multiset(p)[c]
  {
    if p != [] {
      var x, y := SwapChar(p[0], a, b), SwapChar(c, a, b);
      var rest := SwapLetters(p[1..], a, b);
      SwapLettersCount(p[1..], a, b, c);
      assert p == [p[0]] + p[1..];
      calc {
        multiset(SwapLetters(p, a, b))[y];
        (multiset{x} + multiset(rest))[y];
        multiset{x}[y] + multiset(rest)[y];
        { assert (x == y) == (p[0] == c); }
        multiset{p[0]}[c] + multiset(p[1..])[c];
        (multiset{p[0]} + multiset(p[1..]))[c];
        multiset(p)[c];
      }
    }
  }

  /** Swapping letters turns each a into b and each b into a; the number of
      a's afterwards is the number of b's before, and the rest keep their
      counts. So the multiset is kept exactly when a and b occur equally
      often (or are the same letter). */
  lemma SwapLettersCounts(p: seq<char>, a: char, b: char, c: char)
    requires a != b
    ensures multiset(SwapLetters(p, a, b))[a] == multiset(p)[b]
    ensures multiset(SwapLetters(p, a, b))[b] == multiset(p)[a]
    ensures c != a && c != b ==> multiset(SwapLetters(p, a, b))[c] == multiset(p)[c]
  {
    SwapLettersCount(p, a, b, a);
    SwapLettersCount(p, a, b, b);
    SwapLettersCount(p, a, b, c);
  }

  lemma RotateLeftAt(p: seq<char>, n: nat, i: nat)
    requires i < |p|
    ensures Apply(p, RotateLeft(n)).Ok?
    ensures Apply(p, RotateLeft(n)).value[i] == p[(i + n) % |p|]
  {
    assert Apply(p, RotateLeft(n)) == Ok(Rotated(p, n % |p|));
    RotatedAt(p, n % |p|, i);
    ModAdd(i, n, |p|);
  }

  lemma RotateRightAt(p: seq<char>, n: nat, i: nat)
    requires i < |p|
    ensures Apply(p, RotateRight(n)).Ok?
    ensures Apply(p, RotateRight(n)).value[(i + n) % |p|] == p[i]
  {
    var len := |p|;
    var m := n % len;
    var k := (len - m) % len;
    ModSmall(len - m, len);
    assert Apply(p, RotateRight(n)) == Ok(Rotated(p, k));
    ModAdd(i, n, len);
    ModSmall(i + m, len);
    var j := (i + n) % len;
    ModSmall(j + k, len);
    RotatedAt(p, k, j);
  }

  /** Rotating left by n puts old[(i + n) mod len] at i, and a multiple of
      the length is the identity. */
  lemma RotateLeftMeaning(p: seq<char>, n: nat)
    requires |p| > 0
    ensures var r := Apply(p, RotateLeft(n)).value;
      (forall i :: 0 <= i < |p| ==> r[i] == p[(i + n) % |p|])
      && (n % |p| == 0 ==> r == p)
  {
    forall i | 0 <= i < |p| ensures Apply(p, RotateLeft(n)).value[i] == p[(i + n) % |p|] {
      RotateLeftAt(p, n, i);
    }
  }

  /** The program's left-rotation formula for `rotate right n` really
      rotates right: the character at i moves to (i + n) mod len. */
  lemma RotateRightMeaning(p: seq<char>, n: nat)
    requires |p| > 0
    ensures var r := Apply(p, RotateRight(n)).value;
      forall i :: 0 <= i < |p| ==> r[(i + n) % |p|] == p[i]
  {
    forall i | 0 <= i < |p| ensures Apply(p, RotateRight(n)).value[(i + n) % |p|] == p[i] {
      RotateRightAt(p, n, i);
    }
  }

  /** `rotate based on position of letter X` rotates right by 1 + the index
      of the first X, plus 1 more when that index is at least 4. */
  lemma RotateBasedAmount(p: seq<char>, c: char)
    requires c in p
    ensures var i := FirstIndex(p, c);
      Apply(p, RotateBased(c)) == Apply(p, RotateRight(if i >= 4 then i + 2 else i + 1))
  {
    var i := FirstIndex(p, c);
    assert LeftAmount(p, RotateBased(c)) == LeftAmount(p, RotateRight(if i >= 4 then i + 2 else i + 1));
  }

  /** Reversing positions X through Y (X <= Y < len) reverses exactly that
      inclusive slice and keeps the prefix and the suffix. */
  lemma ReverseMeaning(p: seq<char>, x: nat, y: nat)
    requires x <= y < |p| && y < USIZE_MAX
    ensures Apply(p, Reverse(x, y)).Ok?
    ensures var r := Apply(p, Reverse(x, y)).value;
      r[..x] == p[..x] && r[y + 1..] == p[y + 1..]
      && forall k :: x <= k <= y ==> r[k] == p[x + y - k]
  {
    assert Apply(p, Reverse(x, y)) == Ok(ReverseRange(p, x, y + 1));
    ReverseRangeInside(p, x, y + 1);
  }

  /** Inside [lo, hi) the reversed range mirrors the password. */
  lemma ReverseRangeInside(p: seq<char>, lo: nat, hi: nat)
    requires lo <= hi <= |p|
    ensures forall k :: lo <= k < hi ==> ReverseRange(p, lo, hi)[k] == p[lo + hi - 1 - k]
  {
    var r := ReverseRange(p, lo, hi);
    forall k | lo <= k < hi ensures r[k] == p[lo + hi - 1 - k] {
      assert r[k] == r[lo..hi][k - lo];
    }
  }

  /** `swap position` undoes itself. */
  lemma SwapPositionTwice(p: seq<char>, x: nat, y: nat)
    requires x < |p| && y < |p|
    ensures Apply(Apply(p, SwapPosition(x, y)).value, SwapPosition(x, y)) == Ok(p)
  {
    var q := SwapPositions(SwapPositions(p, x, y), x, y);
    assert q == p;
  }

  /** `swap letter` undoes itself. */
  lemma SwapLetterTwice(p: seq<char>, a: char, b: char)
    ensures Apply(Apply(p, SwapLetter(a, b)).value, SwapLetter(a, b)) == Ok(p)
  {
    var once := SwapLetters(p, a, b);
    var q := SwapLetters(once, a, b);
    forall i | 0 <= i < |p| ensures q[i] == p[i] {
      SwapLettersAt(p, a, b, i);
      SwapLettersAt(once, a, b, i);
    }
    assert q == p;
  }

  /** The position j that adding n modulo m takes to i. */
  function Preimage(i: nat, n: nat, m: nat): (j: nat)
    requires i < m
    ensures j < m && (j + n) % m == i
  {
    var r := n % m;
    var j := (i + m - r) % m;
    ModSmall(i + m - r, m);
    ModAdd(j, n, m);
    ModSmall(j + r, m);
    j
  }

  /** `swap position X with Y` exchanges exactly those two positions. */
  lemma SwapPositionMeaning(p: seq<char>, x: nat, y: nat)
    requires x < |p| && y < |p|
    ensures Apply(p, SwapPosition(x, y)).Ok?
    ensures var r := Apply(p, SwapPosition(x, y)).value;
      r[x] == p[y] && r[y] == p[x]
      && forall i :: 0 <= i < |p| && i != x && i != y ==> r[i] == p[i]
  {
    assert Apply(p, SwapPosition(x, y)) == Ok(SwapPositions(p, x, y));
  }

  /** `swap letter X with Y` acts letter by letter: X becomes Y, Y becomes X
      and every other letter stays. */
  lemma SwapLetterMeaning(p: seq<char>, a: char, b: char, i: nat)
    requires i < |p|
    ensures Apply(p, SwapLetter(a, b)).Ok?
    ensures var r := Apply(p, SwapLetter(a, b)).value;
      (p[i] == a ==> r[i] == b) && (p[i] == b && a != b ==> r[i] == a)
      && (p[i] != a && p[i] != b ==> r[i] == p[i])
  {
    SwapLettersAt(p, a, b, i);
  }

  /** Unlike every other operation, `swap letter` need not keep the letters:
      swapping a with a letter that does not occur replaces every a. */
  lemma SwapLetterChangesLetters()
    ensures Apply("ab", SwapLetter('a', 'c')) == Ok("cb")
    ensures multiset("cb") != multiset("ab")
  {
    assert "ab"[1..] == "b" && "b"[1..] == "";
    assert SwapLetters("b", 'a', 'c') == ['b'];
    assert SwapLetters("ab", 'a', 'c') == ['c'] + ['b'];
    assert "ab" == ['a'] + "b" && "cb" == ['c'] + "b";
    assert multiset("ab")['a'] == 1 + multiset("b")['a'];
    assert multiset("cb")['a'] == 0 + multiset("b")['a'];
  }

  /** A right rotation by n is the left rotation by (len - n mod len) mod len. */
  lemma RotateRightAsLeft(p: seq<char>, n: nat)
    requires |p| > 0
    ensures Apply(p, RotateRight(n)) == Apply(p, RotateLeft((|p| - n % |p|) % |p|))
  {
    var k := (|p| - n % |p|) % |p|;
    assert k % |p| == k;
    assert LeftAmount(p, RotateRight(n)) == LeftAmount(p, RotateLeft(k));
  }

  /** `move X to Y` removes the character at X and inserts it at Y; with
      either index outside the password it panics. */
  lemma MoveMeaning(p: seq<char>, x: nat, y: nat)
    ensures Apply(p, Move(x, y)).Ok? <==> x < |p| && y < |p|
    ensures Apply(p, Move(x, y)).Ok? ==>
      var r := Apply(p, Move(x, y)).value;
      r[y] == p[x] && r[..y] + r[y + 1..] == p[..x] + p[x + 1..]
  {
    if x < |p| && y < |p| {
      assert Apply(p, Move(x, y)) == Ok(MoveChar(p, x, y));
    }
  }

  /** The operations that can panic, and exactly when they do. */
  lemma ApplyPanics(p: seq<char>, op: Operation)
    ensures op.SwapPosition? ==> (Apply(p, op).Panic? <==> op.first >= |p| || op.second >= |p|)
    ensures op.SwapLetter? ==> Apply(p, op).Ok?
    ensures op.RotateLeft? || op.RotateRight? ==> (Apply(p, op).Panic? <==> |p| == 0)
    ensures op.RotateBased? ==> (Apply(p, op).Panic? <==> op.letter !in p)
    ensures op.Reverse? ==> (Apply(p, op).Panic? <==> op.end + 1 > USIZE_MAX || op.end + 1 < op.start)
  {
  }

  /** A right rotation by n undoes a left rotation by n. */
  lemma RotateLeftThenRight(p: seq<char>, n: nat)
    requires |p| > 0
    ensures Apply(Apply(p, RotateLeft(n)).value, RotateRight(n)) == Ok(p)
  {
    RotateLeftAt(p, n, 0);
    var q := Apply(p, RotateLeft(n)).value;
    RotateRightAt(q, n, 0);
    var s := Apply(q, RotateRight(n)).value;
    forall i | 0 <= i < |p| ensures s[i] == p[i] {
      var k := Preimage(i, n, |p|);
      RotateLeftAt(p, n, k);
      RotateRightAt(q, n, k);
    }
    assert s == p;
  }

  /** A left rotation by n undoes a right rotation by n. */
  lemma RotateRightThenLeft(p: seq<char>, n: nat)
    requires |p| > 0
    ensures Apply(Apply(p, RotateRight(n)).value, RotateLeft(n)) == Ok(p)
  {
    RotateRightAt(p, n, 0);
    var q := Apply(p, RotateRight(n)).value;
    RotateLeftAt(q, n, 0);
    var s := Apply(q, RotateLeft(n)).value;
    forall i | 0 <= i < |p| ensures s[i] == p[i] {
      RotateLeftAt(q, n, i);
      RotateRightAt(p, n, i);
    }
    assert s == p;
  }

  /** Two sequences of equal length that agree on [0, lo), [lo, hi) and
      [hi, len) are equal. */
  lemma EqualByParts(s: seq<char>, p: seq<char>, lo: nat, hi: nat)
    requires |s| == |p| && lo <= hi <= |p|
    requires s[..lo] == p[..lo] && s[lo..hi] == p[lo..hi] && s[hi..] == p[hi..]
    ensures s == p
  {
    assert s == s[..lo] + s[lo..hi] + s[hi..];
    assert p == p[..lo] + p[lo..hi] + p[hi..];
  }

  /** Reversing [lo, hi) twice gives the password back. */
  lemma ReverseRangeTwice(p: seq<char>, lo: nat, hi: nat)
    requires lo <= hi <= |p|
    ensures ReverseRange(ReverseRange(p, lo, hi), lo, hi) == p
  {
    var q := ReverseRange(p, lo, hi);
    var s := ReverseRange(q, lo, hi);
    ReversedTwice(p[lo..hi]);
    EqualByParts(s, p, lo, hi);
  }

  /** A reversal undoes itself, whatever its bounds. */
  lemma ReverseTwice(p: seq<char>, x: nat, y: nat)
    requires Apply(p, Reverse(x, y)).Ok?
    ensures Apply(Apply(p, Reverse(x, y)).value, Reverse(x, y)) == Ok(p)
  {
    var lo := if x < |p| then x else |p|;
    var hi := if y + 1 < |p| then y + 1 else |p|;
    ReverseRangeTwice(p, lo, hi);
  }

  /** `move Y to X` undoes `move X to Y`. */
  lemma MoveBack(p: seq<char>, x: nat, y: nat)
    requires x < |p| && y < |p|
    ensures Apply(Apply(p, Move(x, y)).value, Move(y, x)) == Ok(p)
  {
    var q := MoveChar(p, x, y);
    assert Apply(p, Move(x, y)) == Ok(q);
    var s := MoveChar(q, y, x);
    assert Apply(q, Move(y, x)) == Ok(s);
    EqualAroundIndex(s, p, x);
  }

  /** Sequences of equal length that agree at x and also once x is removed
      from both are equal. */
  lemma EqualAroundIndex(s: seq<char>, p: seq<char>, x: nat)
    requires |s| == |p| && x < |p| && s[x] == p[x]
    requires s[..x] + s[x + 1..] == p[..x] + p[x + 1..]
    ensures s == p
  {
    var removed := p[..x] + p[x + 1..];
    assert s[..x] == removed[..x] == p[..x];
    assert s[x + 1..] == removed[x..] == p[x + 1..];
    assert s == s[..x] + [s[x]] + s[x + 1..];
    assert p == p[..x] + [p[x]] + p[x + 1..];
  }
}
