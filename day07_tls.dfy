/** day07: an address supports TLS when an ABBA (two different characters
    followed by the same pair reversed) appears outside square brackets and
    none appears inside them. */
module Tls {
  import opened Common

  /** The test of the innermost `else if`: four characters `x y y x` with
      `x != y`, starting at a character that is not a bracket (brackets are
      handled by the two branches before it). */
  predicate AbbaAt(addr: string, i: nat)
    requires i + 3 < |addr|
  {
    addr[i] != '[' && addr[i] != ']'
    && addr[i] != addr[i + 1] && addr[i] == addr[i + 3] && addr[i + 1] == addr[i + 2]
  }

  /** The value of `in_brackets` when the loop reaches index i: the last
      bracket before i decides it, `[` entering and `]` leaving. */
  predicate InBrackets(addr: string, i: nat)
    requires i <= |addr|
    decreases i
  {
    if i == 0 then false
    else if addr[i - 1] == '[' then true
    else if addr[i - 1] == ']' then false
    else InBrackets(addr, i - 1)
  }

  /** An ABBA outside brackets starts before index k. */
  predicate FoundOutside(addr: string, k: nat)
    requires k + 3 <= |addr|
  {
    exists j: nat :: j < k && AbbaAt(addr, j) && !InBrackets(addr, j)
  }

  /** An ABBA inside brackets starts before index k. */
  predicate FoundInside(addr: string, k: nat)
    requires k + 3 <= |addr|
  {
    exists j: nat :: j < k && AbbaAt(addr, j) && InBrackets(addr, j)
  }

  /** What `supports_tls` returns: the scan runs over the starts below
      `len() - 3`, and that subtraction panics on a `usize` below 3. */
  function SupportsTls(addr: string): Result<bool> {
    if |addr| < 3 then Panic("attempt to subtract with overflow")
    else Ok(FoundOutside(addr, |addr| - 3) && !FoundInside(addr, |addr| - 3))
  }

  /** `supports_tls`, the `while` loop with its early `return false`. */
  method SupportsTlsLoop(addr: string) returns (r: Result<bool>)
    ensures r == SupportsTls(addr)
  {
    if |addr| < 3 {
      return Panic("attempt to subtract with overflow");
    }
    var i := 0;
    var inBrackets := false;
    var foundPattern := false;
    while i < |addr| - 3
      invariant i <= |addr| - 3
      invariant inBrackets == InBrackets(addr, i)
      invariant foundPattern == FoundOutside(addr, i)
      invariant !FoundInside(addr, i)
    {
      if addr[i] == '[' {
        inBrackets := true;
      } else if addr[i] == ']' {
        inBrackets := false;
      } else if addr[i] != addr[i + 1] && addr[i] == addr[i + 3] && addr[i + 1] == addr[i + 2] {
        if inBrackets {
          InsideRejects(addr, i);
          return Ok(false);
        }
        foundPattern := true;
      }
      ScanOneMore(addr, i);
      i := i + 1;
    }
    r := Ok(foundPattern);
  }

  /** `lines.iter().filter(supports_tls).count()`; the first address
      shorter than 3 panics. */
  function TlsCount(lines: seq<string>): (r: Result<nat>)
    ensures r.Ok? ==> r.value <= |lines|
    decreases |lines|
  {
    if lines == [] then Ok(0)
    else
      match SupportsTls(lines[0])
      case Panic(why) => Panic(why)
      case Ok(b) =>
        match TlsCount(lines[1..])
        case Panic(why) => Panic(why)
        case Ok(n) => Ok(n + if b then 1 else 0)
  }

  // ---------------------------------------------------------------------
  // Properties

  /** How the three facts the loop tracks change when it passes index i. */
  lemma ScanOneMore(addr: string, i: nat)
    requires i + 4 <= |addr|
    ensures InBrackets(addr, i + 1) == if addr[i] == '[' then true else if addr[i] == ']' then false else InBrackets(addr, i)
    ensures FoundOutside(addr, i + 1) <==> FoundOutside(addr, i) || (AbbaAt(addr, i) && !InBrackets(addr, i))
    ensures FoundInside(addr, i + 1) <==> FoundInside(addr, i) || (AbbaAt(addr, i) && InBrackets(addr, i))
  {
    if FoundOutside(addr, i + 1) {
      var j: nat :| j < i + 1 && AbbaAt(addr, j) && !InBrackets(addr, j);
      if j < i {
        assert FoundOutside(addr, i);
      }
    }
    if FoundInside(addr, i + 1) {
      var j: nat :| j < i + 1 && AbbaAt(addr, j) && InBrackets(addr, j);
      if j < i {
        assert FoundInside(addr, i);
      }
    }
  }

  /** An ABBA inside brackets settles the answer: false. */
  lemma InsideRejects(addr: string, i: nat)
    requires i + 3 < |addr| && AbbaAt(addr, i) && InBrackets(addr, i)
    ensures SupportsTls(addr) == Ok(false)
  {
    assert FoundInside(addr, |addr| - 3);
  }

  /** The answer is true exactly when some ABBA lies outside brackets and
      none inside; short addresses panic, and an address of length 3 has no
      start to scan. */
  lemma SupportsTlsMeaning(addr: string)
    ensures |addr| < 3 <==> SupportsTls(addr).Panic?
    ensures |addr| == 3 ==> SupportsTls(addr) == Ok(false)
    ensures SupportsTls(addr) == Ok(true) <==>
      |addr| >= 3
      && (exists j: nat :: j + 3 < |addr| && AbbaAt(addr, j) && !InBrackets(addr, j))
      && !(exists j: nat :: j + 3 < |addr| && AbbaAt(addr, j) && InBrackets(addr, j))
  {
  }

  /** No `]` lies strictly between j and i. */
  predicate OpenBetween(addr: string, j: nat, i: nat)
    requires i <= |addr|
  {
    forall k :: j < k < i ==> addr[k] != ']'
  }

  /** `in_brackets` holds at i exactly when some `[` before i has no `]`
      between it and i. */
  lemma {:induction false} InBracketsMeaning(addr: string, i: nat)
    requires i <= |addr|
    ensures InBrackets(addr, i) <==> exists j: nat :: j < i && addr[j] == '[' && OpenBetween(addr, j, i)
    decreases i
  {
    if i > 0 {
      InBracketsMeaning(addr, i - 1);
      if addr[i - 1] == '[' {
        assert OpenBetween(addr, i - 1, i);
      } else if addr[i - 1] == ']' {
      } else {
        if InBrackets(addr, i - 1) {
          var j: nat :| j < i - 1 && addr[j] == '[' && OpenBetween(addr, j, i - 1);
          assert OpenBetween(addr, j, i);
        }
        if exists j: nat :: j < i && addr[j] == '[' && OpenBetween(addr, j, i) {
          var j: nat :| j < i && addr[j] == '[' && OpenBetween(addr, j, i);
          assert j < i - 1 && OpenBetween(addr, j, i - 1);
        }
      }
    }
  }

  /** The count over two runs of lines is the sum of their counts. */
  lemma {:induction false} TlsCountSplit(a: seq<string>, b: seq<string>)
    requires TlsCount(a).Ok? && TlsCount(b).Ok?
    ensures TlsCount(a + b) == Ok(TlsCount(a).value + TlsCount(b).value)
    decreases |a|
  {
    if a != [] {
      assert (a + b)[0] == a[0] && (a + b)[1..] == a[1..] + b;
      TlsCountSplit(a[1..], b);
    } else {
      assert a + b == b;
    }
  }

  /** The indices, among the first k lines, of the addresses that support
      TLS. */
  function Supporting(lines: seq<string>, k: nat): set<nat>
    requires k <= |lines|
  {
    set i: nat | i < k && SupportsTls(lines[i]) == Ok(true)
  }

  /** The count is the number of addresses that support TLS. */
  lemma TlsCountMeaning(lines: seq<string>)
    requires TlsCount(lines).Ok?
    ensures TlsCount(lines).value == |Supporting(lines, |lines|)|
  {
    TlsCountPrefix(lines, |lines|);
    assert lines[..|lines|] == lines;
  }

  lemma {:induction false} TlsCountPrefix(lines: seq<string>, k: nat)
    requires k <= |lines| && TlsCount(lines).Ok?
    ensures TlsCount(lines[..k]).Ok? && TlsCount(lines[..k]).value == |Supporting(lines, k)|
    decreases k
  {
    PrefixCounts(lines, k);
    if k == 0 {
      assert Supporting(lines, 0) == {};
    } else {
      var last := lines[k - 1];
      TlsCountPrefix(lines, k - 1);
      PrefixCounts(lines, k - 1);
      assert lines[..k] == lines[..k - 1] + [last];
      SingleCount(last);
      TlsCountSplit(lines[..k - 1], [last]);
      SupportingStep(lines, k - 1);
    }
  }

  /** Every prefix of a counted run of lines is counted. */
  lemma PrefixCounts(lines: seq<string>, k: nat)
    requires k <= |lines| && TlsCount(lines).Ok?
    ensures TlsCount(lines[..k]).Ok?
    ensures k < |lines| ==> |lines[k]| >= 3
  {
    TlsCountPanics(lines);
    TlsCountPanics(lines[..k]);
    assert forall i :: 0 <= i < k ==> lines[..k][i] == lines[i];
  }

  /** One address counts 1 when it supports TLS and 0 otherwise. */
  lemma SingleCount(addr: string)
    requires |addr| >= 3
    ensures TlsCount([addr]) == Ok(if SupportsTls(addr) == Ok(true) then 1 else 0)
  {
    assert [addr][1..] == [];
  }

  lemma SupportingStep(lines: seq<string>, k: nat)
    requires k < |lines|
    ensures |Supporting(lines, k + 1)| == |Supporting(lines, k)| + if SupportsTls(lines[k]) == Ok(true) then 1 else 0
  {
    if SupportsTls(lines[k]) == Ok(true) {
      assert Supporting(lines, k + 1) == Supporting(lines, k) + {k};
    } else {
      assert Supporting(lines, k + 1) == Supporting(lines, k);
    }
  }

  /** The count panics exactly when some address is shorter than 3. */
  lemma {:induction false} TlsCountPanics(lines: seq<string>)
    ensures TlsCount(lines).Panic? <==> exists i :: 0 <= i < |lines| && |lines[i]| < 3
    decreases |lines|
  {
    if lines != [] {
      TlsCountPanics(lines[1..]);
      if exists i :: 0 <= i < |lines| && |lines[i]| < 3 {
        var i :| 0 <= i < |lines| && |lines[i]| < 3;
        if i > 0 {
          assert |lines[1..][i - 1]| < 3;
        }
      }
      if exists i :: 0 <= i < |lines[1..]| && |lines[1..][i]| < 3 {
        var i :| 0 <= i < |lines[1..]| && |lines[1..][i]| < 3;
        assert |lines[i + 1]| < 3;
      }
    }
  }

  /** The samples from the puzzle: `abba[mnop]qrst` supports TLS and
      `abcd[bddb]xyyx` does not. */
  lemma ExampleSupported()
    ensures SupportsTls("abba[mnop]qrst") == Ok(true)
  {
    var s := "abba[mnop]qrst";
    assert AbbaAt(s, 0) && !InBrackets(s, 0);
    forall j: nat | j + 3 < |s| && AbbaAt(s, j) ensures !InBrackets(s, j) {
      assert j == 0;
    }
  }

  lemma ExampleInsideBrackets()
    ensures SupportsTls("abcd[bddb]xyyx") == Ok(false)
  {
    var s := "abcd[bddb]xyyx";
    assert s[4] == '[' && InBrackets(s, 5);
    InsideRejects(s, 5);
  }
}
