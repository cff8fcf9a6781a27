/** day09: the decompressed length of a string with markers `(SxC)`. A
    marker stands for its next S characters repeated C times; those
    characters are skipped without being scanned for further markers. */
module Decompression {
  import opened Common
  import opened Text
  import opened Modular

  /** `take_while(|c| *c != stop)`: the longest prefix without `stop`. */
  function TakeUntil(s: string, stop: char): (r: string)
    ensures |r| <= |s|
  {
    if s == [] || s[0] == stop then [] else [s[0]] + TakeUntil(s[1..], stop)
  }

  /** The text of the marker that opens at index i, up to the next `)` (or
      to the end when no `)` follows). */
  function Encoding(s: string, i: nat): string
    requires i < |s|
  {
    TakeUntil(s[i + 1..], ')')
  }

  datatype Marker = Marker(size: nat, count: nat)

  /** Whether a marker's text splits at an `x` into two `usize` numbers. */
  predicate WellFormed(encoding: string) {
    var parts := SplitOnce(encoding, "x");
    parts.Some? && ParseUsize(parts.value.0).Some? && ParseUsize(parts.value.1).Some?
  }

  /** `split_once("x").unwrap()`, then `count.parse()` and `size.parse()` as
      `usize`, each unwrapped. */
  function ParseMarker(encoding: string): Result<Marker> {
    match SplitOnce(encoding, "x")
    case None => Panic("called `Option::unwrap()` on a `None` value")
    case Some((size, count)) =>
      match ParseUsize(count)
      case None => Panic("called `Result::unwrap()` on an `Err` value")
      case Some(c) =>
        match ParseUsize(size)
        case None => Panic("called `Result::unwrap()` on an `Err` value")
        case Some(z) => Ok(Marker(z, c))
  }

  /** The index just past the `)` of the marker that opens at i. */
  function MarkerEnd(s: string, i: nat): nat
    requires i < |s|
  {
    i + |Encoding(s, i)| + 2
  }

  function Plus(r: Result<nat>, k: nat): (p: Result<nat>)
    ensures p.Ok? <==> r.Ok?
    ensures p.Ok? ==> p.value == r.value + k
    ensures p.Panic? ==> p.reason == r.reason
  {
    match r
    case Ok(n) => Ok(n + k)
    case Panic(why) => Panic(why)
  }

  /** The decompressed length of s from index i on: a plain character
      counts 1; a marker counts S * C and the scan resumes past the `)` and
      the S characters it covers. */
  function LengthFrom(s: string, i: nat): Result<nat>
    decreases |s| - i
  {
    if i >= |s| then Ok(0)
    else if s[i] != '(' then Plus(LengthFrom(s, i + 1), 1)
    else
      match ParseMarker(Encoding(s, i))
      case Panic(why) => Panic(why)
      case Ok(m) => Plus(LengthFrom(s, MarkerEnd(s, i) + m.size), Times(m.count, m.size))
  }

  lemma PlusTwice(r: Result<nat>, a: nat, b: nat)
    ensures Plus(Plus(r, a), b) == Plus(r, a + b)
  {
  }

  /** `lines.first().unwrap()` and the scan of that line. */
  function DecompressedLength(lines: seq<string>): Result<nat> {
    if lines == [] then Panic("called `Option::unwrap()` on a `None` value") else LengthFrom(lines[0], 0)
  }

  // ---------------------------------------------------------------------
  // The `while` loop of `main`

  /** One pass of the loop body at `index`: the next index and the length
      it adds, or the panic of a malformed marker. */
  method Advance(compressed: string, index: nat) returns (step: Result<(nat, nat)>)
    requires index < |compressed|
    ensures step.Panic? ==> LengthFrom(compressed, index) == Panic(step.reason)
    ensures step.Ok? ==> step.value.0 > index
    ensures step.Ok? ==> LengthFrom(compressed, index) == Plus(LengthFrom(compressed, step.value.0), step.value.1)
  {
    if compressed[index] != '(' {
      assert LengthFrom(compressed, index) == Plus(LengthFrom(compressed, index + 1), 1);
      return Ok((index + 1, 1));
    }
    var encoding := TakeUntil(compressed[index + 1..], ')');
    assert encoding == Encoding(compressed, index);
    var marker := ParseMarker(encoding);
    if marker.Panic? {
      assert LengthFrom(compressed, index) == Panic(marker.reason);
      return Panic(marker.reason);
    }
    var next: nat := index + |encoding| + 2 + marker.value.size;
    var added := Times(marker.value.count, marker.value.size);
    assert LengthFrom(compressed, index) == Plus(LengthFrom(compressed, next), added);
    step := Ok((next, added));
  }

  /** The scan over `index`, accumulating `length`. Each pass moves
      `index` forward, by one or past a whole marker and its text. */
  method Scan(compressed: string) returns (r: Result<nat>)
    ensures r == LengthFrom(compressed, 0)
  {
    var length: nat := 0;
    var index: nat := 0;
    while index < |compressed|
      invariant LengthFrom(compressed, 0) == Plus(LengthFrom(compressed, index), length)
      decreases |compressed| - index
    {
      var step := Advance(compressed, index);
      if step.Panic? {
        return Panic(step.reason);
      }
      PlusTwice(LengthFrom(compressed, step.value.0), step.value.1, length);
      index, length := step.value.0, length + step.value.1;
    }
    r := Ok(length);
  }

  method Solve(lines: seq<string>) returns (r: Result<nat>)
    ensures r == DecompressedLength(lines)
  {
    if lines == [] {
      return Panic("called `Option::unwrap()` on a `None` value");
    }
    r := Scan(lines[0]);
  }

  // ---------------------------------------------------------------------
  // Properties

  /** Text without `(` decompresses to its own length. */
  lemma {:induction false} NoMarkerLength(s: string, i: nat)
    requires i <= |s| && forall k :: i <= k < |s| ==> s[k] != '('
    ensures LengthFrom(s, i) == Ok(|s| - i)
    decreases |s| - i
  {
    if i < |s| {
      NoMarkerLength(s, i + 1);
    }
  }

  /** `split_once` and the two `parse` calls succeed exactly on a
      well-formed marker, giving its size and count. */
  lemma ParseMarkerMeaning(encoding: string)
    ensures ParseMarker(encoding).Ok? <==> WellFormed(encoding)
    ensures ParseMarker(encoding).Ok? ==>
      var parts := SplitOnce(encoding, "x").value;
      ParseUsize(parts.0) == Some(ParseMarker(encoding).value.size)
      && ParseUsize(parts.1) == Some(ParseMarker(encoding).value.count)
  {
  }

  /** The scan from index k looks only at the text from k on. */
  lemma {:induction false} LengthFromSuffix(s: string, t: string, k: nat)
    requires |s| == |t| && k <= |s| && s[k..] == t[k..]
    ensures LengthFrom(s, k) == LengthFrom(t, k)
    decreases |s| - k
  {
    if k < |s| {
      assert s[k] == s[k..][0] == t[k..][0] == t[k];
      assert s[k + 1..] == s[k..][1..] == t[k..][1..] == t[k + 1..];
      if s[k] != '(' {
        LengthFromSuffix(s, t, k + 1);
      } else {
        assert Encoding(s, k) == Encoding(t, k);
        var m := ParseMarker(Encoding(s, k));
        if m.Ok? {
          var next := MarkerEnd(s, k) + m.value.size;
          if next <= |s| {
            assert s[next..] == s[k..][next - k..] == t[k..][next - k..] == t[next..];
            LengthFromSuffix(s, t, next);
          }
        }
      }
    }
  }

  /** `take_while` reads its input only up to the first `stop`. */
  lemma {:induction false} TakeUntilStops(a: string, stop: char)
    ensures var n := |TakeUntil(a, stop)|;
      TakeUntil(a, stop) == a[..n] && stop !in a[..n] && (n < |a| ==> a[n] == stop)
    decreases |a|
  {
    if a != [] && a[0] != stop {
      TakeUntilStops(a[1..], stop);
    }
  }

  /** Strings that agree up to and including their first `stop` give the
      same `take_while` prefix. */
  lemma {:induction false} TakeUntilAgrees(a: string, b: string, stop: char, n: nat)
    requires n == |TakeUntil(a, stop)| && n < |a| && n < |b| && a[..n + 1] == b[..n + 1]
    ensures TakeUntil(b, stop) == TakeUntil(a, stop)
    decreases |a|
  {
    assert a[0] == a[..n + 1][0] == b[0];
    if a[0] != stop {
      assert TakeUntil(a, stop) == [a[0]] + TakeUntil(a[1..], stop);
      assert a[1..][..n] == a[..n + 1][1..] == b[..n + 1][1..] == b[1..][..n];
      TakeUntilAgrees(a[1..], b[1..], stop, n - 1);
    }
  }

  /** A marker adds S * C and skips its S characters unscanned: text that
      differs from s only inside those S characters gives the same length. */
  lemma MarkerSkipsItsText(s: string, t: string, i: nat, m: Marker)
    requires i < |s| == |t| && s[i] == '(' && ParseMarker(Encoding(s, i)) == Ok(m)
    requires MarkerEnd(s, i) + m.size <= |s|
    requires s[..MarkerEnd(s, i)] == t[..MarkerEnd(s, i)] && s[MarkerEnd(s, i) + m.size..] == t[MarkerEnd(s, i) + m.size..]
    ensures LengthFrom(s, i) == Plus(LengthFrom(s, MarkerEnd(s, i) + m.size), Times(m.count, m.size))
    ensures LengthFrom(s, i) == LengthFrom(t, i)
  {
    var end := MarkerEnd(s, i);
    var n := |Encoding(s, i)|;
    assert t[i] == t[..end][i] == s[i];
    assert s[i + 1..][..n + 1] == s[..end][i + 1..] == t[..end][i + 1..] == t[i + 1..][..n + 1];
    TakeUntilAgrees(s[i + 1..], t[i + 1..], ')', n);
    assert MarkerEnd(t, i) == end;
    LengthFromSuffix(s, t, end + m.size);
  }

  /** A marker whose text does not split at an `x` into two `usize`
      numbers panics. */
  lemma MalformedMarkerPanics(s: string, i: nat)
    requires i < |s| && s[i] == '(' && !WellFormed(Encoding(s, i))
    ensures LengthFrom(s, i).Panic?
  {
    ParseMarkerMeaning(Encoding(s, i));
  }

  /** The marker text `1x5` has size 1 and count 5. */
  lemma ExampleMarker()
    ensures ParseMarker("1x5") == Ok(Marker(1, 5))
  {
    assert "1x5"[..1] != "x" && "1x5"[1..] == "x5" && "x5"[..1] == "x";
    assert IndexOf("1x5", "x") == Some(1);
    assert "1x5"[..1] == "1" && "1x5"[2..] == "5";
    assert SplitOnce("1x5", "x") == Some(("1", "5"));
    assert "1"[..0] == [] && ParseUsize("1") == Some(1);
    assert "5"[..0] == [] && ParseUsize("5") == Some(5);
  }

  /** In `A(1x5)BC` the marker at index 1 reads `1x5`. */
  lemma ExampleEncoding()
    ensures Encoding("A(1x5)BC", 1) == "1x5"
  {
    assert ")BC"[0] == ')' && TakeUntil(")BC", ')') == [];
    assert "5)BC"[1..] == ")BC" && TakeUntil("5)BC", ')') == "5";
    assert "x5)BC"[1..] == "5)BC" && TakeUntil("x5)BC", ')') == "x5";
    assert "1x5)BC"[1..] == "x5)BC" && TakeUntil("1x5)BC", ')') == "1x5";
    assert "A(1x5)BC"[2..] == "1x5)BC";
  }

  /** The sample `A(1x5)BC` from the puzzle: the marker repeats `B` five
      times, for a length of 7. */
  lemma ExampleLength()
    ensures LengthFrom("A(1x5)BC", 0) == Ok(7)
  {
    var s := "A(1x5)BC";
    ExampleEncoding();
    ExampleMarker();
    assert s[7] == 'C';
    NoMarkerLength(s, 7);
    assert s[1] == '(' && MarkerEnd(s, 1) == 6;
    assert LengthFrom(s, 1) == Plus(LengthFrom(s, 7), Times(5, 1));
    assert s[0] == 'A';
    assert LengthFrom(s, 0) == Plus(LengthFrom(s, 1), 1);
  }
}
