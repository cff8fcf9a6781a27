/** The pieces of Rust's string handling that the puzzle programs lean on:
    `split_whitespace`, `str::parse` for the integer types, `split_once`,
    `split`, `trim`, `trim_start_matches` and `trim_end_matches`.
    Strings are sequences of Unicode scalar values, as Rust's `chars()`. */
module Text {
  import opened Common

  // ---------------------------------------------------------------------
  // Whitespace and tokens

  /** Unicode White_Space, the set Rust's `char::is_whitespace` uses. */
  predicate IsWhitespace(c: char) {
    ('\U{9}' <= c <= '\U{D}') || c == ' ' || c == '\U{85}' || c == '\U{A0}' || c == '\U{1680}'
    || ('\U{2000}' <= c <= '\U{200A}') || c == '\U{2028}' || c == '\U{2029}'
    || c == '\U{202F}' || c == '\U{205F}' || c == '\U{3000}'
  }

  predicate NoWhitespace(s: string) {
    forall i :: 0 <= i < |s| ==> !IsWhitespace(s[i])
  }

  /** Length of the longest whitespace-free prefix of `s`. */
  function TokenEnd(s: string): (n: nat)
    ensures n <= |s|
    ensures forall i :: 0 <= i < n ==> !IsWhitespace(s[i])
    ensures n < |s| ==> IsWhitespace(s[n])
  {
    if s == [] || IsWhitespace(s[0]) then 0 else 1 + TokenEnd(s[1..])
  }

  /** Rust's `split_whitespace`: the maximal whitespace-free runs, in order. */
  function SplitWhitespace(s: string): (tokens: seq<string>)
    ensures forall k :: 0 <= k < |tokens| ==> tokens[k] != [] && NoWhitespace(tokens[k])
    decreases |s|
  {
    if s == [] then []
    else if IsWhitespace(s[0]) then SplitWhitespace(s[1..])
    else
      var n := TokenEnd(s);
      [s[..n]] + SplitWhitespace(s[n..])
  }

  /** The tokens joined with `sep` between neighbours (Rust's `join`). */
  function Join(parts: seq<string>, sep: string): string {
    if |parts| == 0 then []
    else if |parts| == 1 then parts[0]
    else parts[0] + sep + Join(parts[1..], sep)
  }

  lemma {:induction false} TokenEndOfToken(t: string, rest: string)
    requires t != [] && NoWhitespace(t)
    requires rest == [] || IsWhitespace(rest[0])
    ensures TokenEnd(t + rest) == |t|
    decreases |t|
  {
    var s := t + rest;
    assert s[0] == t[0] && !IsWhitespace(s[0]);
    if |t| > 1 {
      assert s[1..] == t[1..] + rest;
      TokenEndOfToken(t[1..], rest);
    } else {
      assert s[1..] == rest;
      assert TokenEnd(rest) == 0;
    }
  }

  /** Splitting a line whose tokens are separated by single spaces gives the
      tokens back. */
  lemma {:induction false} SplitJoinedTokens(tokens: seq<string>)
    requires forall k :: 0 <= k < |tokens| ==> tokens[k] != [] && NoWhitespace(tokens[k])
    ensures SplitWhitespace(Join(tokens, " ")) == tokens
    decreases |tokens|
  {
    if |tokens| == 1 {
      var t := tokens[0];
      TokenEndOfToken(t, []);
      assert t + [] == t;
      assert t[|t|..] == [];
    } else if |tokens| > 1 {
      var t, rest := tokens[0], Join(tokens[1..], " ");
      var s := t + " " + rest;
      assert s == t + (" " + rest);
      TokenEndOfToken(t, " " + rest);
      assert s[..|t|] == t;
      assert s[|t|..] == " " + rest;
      assert (" " + rest)[1..] == rest;
      SplitJoinedTokens(tokens[1..]);
      assert [t] + tokens[1..] == tokens;
    }
  }

  /** `components[k]`, which panics when the line has too few tokens. */
  function Token(tokens: seq<string>, k: nat): (r: Result<string>)
    ensures r.Ok? <==> k < |tokens|
    ensures r.Ok? ==> r.value == tokens[k]
  {
    if k < |tokens| then Ok(tokens[k]) else Panic("index out of bounds")
  }

  /** `components[k].parse::<usize>().unwrap()`: a missing token or one
      that is not a usize panics. */
  function UsizeAt(tokens: seq<string>, k: nat): (r: Result<nat>)
    ensures r.Ok? <==> k < |tokens| && ParseUsize(tokens[k]).Some?
    ensures r.Ok? ==> ParseUsize(tokens[k]) == Some(r.value)
  {
    if k >= |tokens| then Panic("index out of bounds")
    else match ParseUsize(tokens[k])
      case None => Panic("called `Result::unwrap()` on an `Err` value")
      case Some(n) => Ok(n)
  }

  /** Rust's `trim`: whitespace removed at both ends. */
  function Trim(s: string): (r: string)
    ensures |r| <= |s|
    ensures r != [] ==> !IsWhitespace(r[0]) && !IsWhitespace(r[|r| - 1])
    decreases |s|
  {
    if s == [] then []
    else if IsWhitespace(s[0]) then Trim(s[1..])
    else if IsWhitespace(s[|s| - 1]) then Trim(s[..|s| - 1])
    else s
  }

  // ---------------------------------------------------------------------
  // Numbers

  const U8_MAX: nat := 0xFF
  const U32_MAX: nat := 0xFFFF_FFFF
  const USIZE_MAX: nat := 0xFFFF_FFFF_FFFF_FFFF
  const I32_MIN: int := -0x8000_0000
  const I32_MAX: int := 0x7FFF_FFFF

  predicate IsDigit(c: char) { '0' <= c <= '9' }

  function DigitValue(c: char): (d: nat)
    requires IsDigit(c)
    ensures d < 10
  {
    (c as int) - ('0' as int)
  }

  function DigitChar(d: nat): (c: char)
    requires d < 10
    ensures IsDigit(c) && DigitValue(c) == d
  {
    (('0' as int) + d) as char
  }

  predicate AllDigits(s: string) {
    forall i :: 0 <= i < |s| ==> IsDigit(s[i])
  }

  /** The value of a string of decimal digits, most significant first. */
  function DigitsValue(s: string): nat
    requires AllDigits(s)
  {
    if s == [] then 0 else DigitsValue(s[..|s| - 1]) * 10 + DigitValue(s[|s| - 1])
  }

  /** `str::parse` for an unsigned type whose largest value is `max`: an
      optional `+`, then at least one decimal digit, and no overflow. */
  function ParseUnsigned(s: string, max: nat): (r: Option<nat>)
    ensures r.Some? ==> r.value <= max
    ensures r.Some? ==> s != [] && (IsDigit(s[0]) || s[0] == '+')
  {
    var digits := if |s| > 0 && s[0] == '+' then s[1..] else s;
    if digits != [] && AllDigits(digits) && DigitsValue(digits) <= max
    then Some(DigitsValue(digits)) else None
  }

  /** `str::parse` for a signed type with range [min, max]: an optional `+`
      or `-`, then at least one decimal digit, and no overflow. */
  function ParseSigned(s: string, min: int, max: int): (r: Option<int>)
    requires min <= 0 <= max
    ensures r.Some? ==> min <= r.value <= max
    ensures r.Some? ==> s != [] && (IsDigit(s[0]) || s[0] == '+' || s[0] == '-')
  {
    if |s| > 0 && s[0] == '-' then
      var digits := s[1..];
      if digits != [] && AllDigits(digits) && min <= 0 - DigitsValue(digits) as int
      then Some(0 - DigitsValue(digits) as int) else None
    else
      match ParseUnsigned(s, max)
      case Some(v) => Some(v)
      case None => None
  }

  function ParseU8(s: string): Option<nat> { ParseUnsigned(s, U8_MAX) }
  function ParseU32(s: string): Option<nat> { ParseUnsigned(s, U32_MAX) }
  function ParseUsize(s: string): Option<nat> { ParseUnsigned(s, USIZE_MAX) }
  function ParseI32(s: string): Option<int> { ParseSigned(s, I32_MIN, I32_MAX) }

  /** Decimal rendering of a natural number, without leading zeros. */
  function ShowNat(n: nat): (s: string)
    ensures s != [] && AllDigits(s)
  {
    if n < 10 then [DigitChar(n)] else ShowNat(n / 10) + [DigitChar(n % 10)]
  }

  function ShowInt(i: int): string {
    if i < 0 then "-" + ShowNat(-i) else ShowNat(i)
  }

  /** A rendered number is one whitespace-free token. */
  lemma ShowNatToken(n: nat)
    ensures NoWhitespace(ShowNat(n))
  {
    var digits := ShowNat(n);
    assert forall k :: 0 <= k < |digits| ==> IsDigit(digits[k]) && !IsWhitespace(digits[k]);
  }

  lemma ShowIntToken(i: int)
    ensures ShowInt(i) != [] && NoWhitespace(ShowInt(i))
  {
    var digits := ShowNat(if i < 0 then -i else i);
    ShowNatToken(if i < 0 then -i else i);
    if i < 0 {
      var s := ShowInt(i);
      assert s == "-" + digits;
      assert forall k :: 1 <= k < |s| ==> s[k] == digits[k - 1];
    }
  }

  lemma {:induction false} ShowNatValue(n: nat)
    ensures DigitsValue(ShowNat(n)) == n
  {
    var s := ShowNat(n);
    if n >= 10 {
      ShowNatValue(n / 10);
      assert s[..|s| - 1] == ShowNat(n / 10);
    }
  }

  /** Parsing the decimal rendering of a value in range gives the value back. */
  lemma ParseShowNat(n: nat, max: nat)
    requires n <= max
    ensures ParseUnsigned(ShowNat(n), max) == Some(n)
  {
    ShowNatValue(n);
  }

  lemma ParseShowInt(i: int, min: int, max: int)
    requires min <= 0 <= max && min <= i <= max
    ensures ParseSigned(ShowInt(i), min, max) == Some(i)
  {
    if i < 0 {
      ParseShowNegative(i, min, max);
    } else {
      ParseShowNat(i, max);
      assert ShowInt(i) == ShowNat(i);
    }
  }

  lemma ParseShowNegative(i: int, min: int, max: int)
    requires min <= i < 0 <= max
    ensures ParseSigned(ShowInt(i), min, max) == Some(i)
  {
    var digits := ShowNat(-i);
    var s := ShowInt(i);
    assert s[0] == '-' && s[1..] == digits;
    ShowNatValue(-i);
    assert DigitsValue(digits) == -i;
  }

  // ---------------------------------------------------------------------
  // Patterns

  predicate MatchAt(s: string, pat: string, k: nat) {
    k + |pat| <= |s| && s[k..k + |pat|] == pat
  }

  /** Position of the first occurrence of `pat` in `s` (Rust's `find`). */
  function IndexOf(s: string, pat: string): (r: Option<nat>)
    requires pat != []
    ensures r.Some? ==> r.value + |pat| <= |s|
    decreases |s|
  {
    if |s| < |pat| then None
    else if s[..|pat|] == pat then Some(0)
    else
      match IndexOf(s[1..], pat)
      case Some(i) => Some(i + 1)
      case None => None
  }

  /** `find` gives the first position where `pat` occurs, and `None` only
      when it occurs nowhere. */
  lemma {:induction false} IndexOfMeaning(s: string, pat: string)
    requires pat != []
    ensures IndexOf(s, pat).Some? ==> MatchAt(s, pat, IndexOf(s, pat).value)
    ensures IndexOf(s, pat).Some? ==> forall k: nat :: k < IndexOf(s, pat).value ==> !MatchAt(s, pat, k)
    ensures IndexOf(s, pat).None? ==> forall k: nat :: !MatchAt(s, pat, k)
    decreases |s|
  {
    if |s| >= |pat| && s[..|pat|] != pat {
      IndexOfMeaning(s[1..], pat);
      assert forall k: nat :: 0 < k ==> (MatchAt(s, pat, k) <==> MatchAt(s[1..], pat, k - 1));
    }
  }

  /** Rust's `split_once`: the text around the first occurrence of `pat`. */
  function SplitOnce(s: string, pat: string): (r: Option<(string, string)>)
    requires pat != []
    ensures r.Some? <==> IndexOf(s, pat).Some?
    ensures r.Some? ==> |r.value.0| == IndexOf(s, pat).value && s == r.value.0 + pat + r.value.1
  {
    match IndexOf(s, pat)
    case None => None
    case Some(i) =>
      IndexOfMeaning(s, pat);
      assert s == s[..i] + s[i..i + |pat|] + s[i + |pat|..];
      Some((s[..i], s[i + |pat|..]))
  }

  /** `split_once` at a one-character pattern splits at its first
      occurrence: the part before holds none. */
  lemma SplitOnceFirst(s: string, c: char)
    requires SplitOnce(s, [c]).Some?
    ensures s == SplitOnce(s, [c]).value.0 + [c] + SplitOnce(s, [c]).value.1
    ensures c !in SplitOnce(s, [c]).value.0
  {
    var before := SplitOnce(s, [c]).value.0;
    IndexOfMeaning(s, [c]);
    forall k | 0 <= k < |before| ensures before[k] != c {
      assert !MatchAt(s, [c], k);
      assert s[k..k + 1] == [before[k]];
    }
  }

  /** `split_once` at a character that the text before it lacks splits
      exactly there. */
  lemma SplitOnceAt(before: string, c: char, after: string)
    requires c !in before
    ensures SplitOnce(before + [c] + after, [c]) == Some((before, after))
  {
    var s := before + [c] + after;
    IndexOfMeaning(s, [c]);
    assert s[|before|..|before| + 1] == [c];
    assert MatchAt(s, [c], |before|);
    forall k | 0 <= k < |before| ensures !MatchAt(s, [c], k) {
      assert s[k..k + 1] == [before[k]];
    }
    assert IndexOf(s, [c]).value == |before|;
    var parts := SplitOnce(s, [c]).value;
    assert parts.0 == s[..|before|] == before;
    assert parts.1 == s[|before| + 1..] == after;
  }

  /** Rust's `split` on a non-empty pattern: the pieces between successive
      non-overlapping occurrences, left to right. */
  function Split(s: string, pat: string): (parts: seq<string>)
    requires pat != []
    ensures |parts| >= 1
    decreases |s|
  {
    match SplitOnce(s, pat)
    case None => [s]
    case Some((before, after)) => [before] + Split(after, pat)
  }

  /** Splitting and joining again with the same pattern restores the text. */
  lemma {:induction false} JoinSplit(s: string, pat: string)
    requires pat != []
    ensures Join(Split(s, pat), pat) == s
    decreases |s|
  {
    match SplitOnce(s, pat)
    case None =>
    case Some((before, after)) =>
      JoinSplit(after, pat);
      var rest := Split(after, pat);
      assert Split(s, pat) == [before] + rest;
      assert ([before] + rest)[1..] == rest;
  }

  /** `split(c).last().unwrap()` for a one-character pattern: the text
      after the last `c`, or all of it when there is none. */
  function AfterLast(s: string, c: char): (r: string)
    ensures |r| <= |s| && r == s[|s| - |r|..] && c !in r
    ensures |r| < |s| ==> s[|s| - |r| - 1] == c
    decreases |s|
  {
    if s == [] then []
    else if s[|s| - 1] == c then []
    else
      AfterLast(s[..|s| - 1], c) + [s[|s| - 1]]
  }

  function Last<T>(s: seq<T>): T
    requires |s| > 0
  {
    s[|s| - 1]
  }

  /** Rust's `trim_end_matches` with a string pattern: every trailing copy of
      `pat` removed. */
  function TrimEndMatches(s: string, pat: string): (r: string)
    requires pat != []
    ensures |r| <= |s| && r == s[..|r|]
    ensures !(|pat| <= |r| && r[|r| - |pat|..] == pat)
    decreases |s|
  {
    if |pat| <= |s| && s[|s| - |pat|..] == pat then
      var shorter := s[..|s| - |pat|];
      var r := TrimEndMatches(shorter, pat);
      assert r == s[..|r|];
      r
    else s
  }

  /** Rust's `trim_start_matches` with a string pattern. */
  function TrimStartMatches(s: string, pat: string): (r: string)
    requires pat != []
    ensures |r| <= |s| && r == s[|s| - |r|..]
    ensures !(|pat| <= |r| && r[..|pat|] == pat)
    decreases |s|
  {
    if |pat| <= |s| && s[..|pat|] == pat then
      var r := TrimStartMatches(s[|pat|..], pat);
      assert r == s[|s| - |r|..];
      r
    else s
  }

  predicate IsLower(c: char) { 'a' <= c <= 'z' }
}
