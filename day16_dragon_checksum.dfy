/** day16: fill a disk with a dragon curve grown from the input bits, cut it
    to the disk size, and fold the result pairwise into a checksum of odd
    length. */
module DragonChecksum {
  import opened Common

  /** `if c == '0' { false } else { true }`, character by character. */
  function ParseBits(input: string): (r: seq<bool>)
    ensures |r| == |input|
    ensures forall i :: 0 <= i < |input| ==> (r[i] <==> input[i] != '0')
  {
    seq(|input|, i requires 0 <= i < |input| => input[i] != '0')
  }

  /** The `map(|b| if *b { "1" } else { "0" })` used to print the answer. */
  function ShowBits(bits: seq<bool>): (s: string)
    ensures |s| == |bits|
    ensures forall i :: 0 <= i < |bits| ==> s[i] in "01"
  {
    seq(|bits|, i requires 0 <= i < |bits| => if bits[i] then '1' else '0')
  }

  /** `map(|b| !b).rev()`: the complement read backwards. */
  function FlippedBack(a: seq<bool>): (r: seq<bool>)
    ensures |r| == |a|
    ensures forall i :: 0 <= i < |a| ==> r[i] == !a[|a| - 1 - i]
  {
    seq(|a|, i requires 0 <= i < |a| => !a[|a| - 1 - i])
  }

  /** One pass of the expansion loop: `push(false)` and then the flipped,
      reversed copy. */
  function DragonStep(a: seq<bool>): (r: seq<bool>)
  {
    a + [false] + FlippedBack(a)
  }

  /** The curve after `n` dragon steps. */
  function Curve(a: seq<bool>, n: nat): seq<bool>
    decreases n
  {
    if n == 0 then a else Curve(DragonStep(a), n - 1)
  }

  /** The number of dragon steps the `while data.len() < space` loop runs. */
  function StepsNeeded(a: seq<bool>, space: nat): (n: nat)
    decreases space - |a|
  {
    DragonGrows(a);
    if |a| >= space then 0 else StepsNeeded(DragonStep(a), space) + 1
  }

  /** The bits written to the disk: the curve after the expansion loop,
      truncated to `space`. */
  function DiskData(input: string, space: nat): (r: seq<bool>)
    ensures |r| == space
  {
    var a := ParseBits(input);
    var full := Curve(a, StepsNeeded(a, space));
    CurveReachesSpace(a, space);
    full[..space]
  }

  /** One checksum pass: `chunks(2)` of an even-length sequence, each pair
      becoming whether its two bits agree. */
  function ChecksumStep(d: seq<bool>): (r: seq<bool>)
    requires |d| % 2 == 0
    ensures |r| == |d| / 2
    ensures forall i :: 0 <= i < |r| ==> (r[i] <==> d[2 * i] == d[2 * i + 1])
  {
    seq(|d| / 2, i requires 0 <= i < |d| / 2 => d[2 * i] == d[2 * i + 1])
  }

  /** The `loop` of the checksum: fold until the length is odd. On an empty
      sequence the loop never ends (`0 % 2 == 0` and chunking gives the
      empty sequence again), so the checksum exists only for non-empty
      data. */
  function Checksum(d: seq<bool>): (r: seq<bool>)
    requires |d| > 0
    ensures |r| % 2 == 1
    decreases |d|
  {
    if |d| % 2 == 1 then d else Checksum(ChecksumStep(d))
  }

  /** The largest odd divisor of n: the checksum's length. */
  function OddPart(n: nat): nat
    requires n > 0
    decreases n
  {
    if n % 2 == 1 then n else OddPart(n / 2)
  }

  // ---------------------------------------------------------------------
  // The two loops of `main`, on a mutable bit vector

  /** The expansion loop and `truncate(space)`. */
  method Fill(input: string, space: nat) returns (data: seq<bool>)
    ensures data == DiskData(input, space)
    ensures |data| == space
  {
    data := ParseBits(input);
    ghost var steps := 0;
    while |data| < space
      invariant data == Curve(ParseBits(input), steps)
      invariant StepsNeeded(ParseBits(input), space) == steps + StepsNeeded(data, space)
      decreases space - |data|
    {
      DragonGrows(data);
      var toAppend := FlippedBack(data);
      data := data + [false];
      data := data + toAppend;
      CurveStep(ParseBits(input), steps);
      steps := steps + 1;
    }
    CurveReachesSpace(ParseBits(input), space);
    data := data[..space];
  }

  /** The checksum `loop`; `None` stands for the loop that never ends on
      empty data. */
  method ChecksumLoop(initial: seq<bool>) returns (r: Option<seq<bool>>)
    ensures |initial| == 0 <==> r.None?
    ensures r.Some? ==> r.value == Checksum(initial)
  {
    if |initial| == 0 {
      return None;
    }
    var data := initial;
    while true
      invariant |data| > 0 && Checksum(data) == Checksum(initial)
      decreases |data|
    {
      if |data| % 2 == 1 {
        break;
      }
      data := ChecksumStep(data);
    }
    r := Some(data);
  }

  /** The whole program: fill, then checksum; `None` when `space` is 0. */
  method Solve(input: string, space: nat) returns (r: Option<seq<bool>>)
    ensures space == 0 <==> r.None?
    ensures space > 0 ==> r == Some(Checksum(DiskData(input, space)))
  {
    var data := Fill(input, space);
    r := ChecksumLoop(data);
  }

  // ---------------------------------------------------------------------
  // Properties

  /** Printing parsed bits gives the input back when it holds only 0 and 1,
      and parsing printed bits gives the bits back. */
  lemma BitsRoundTrip(input: string, bits: seq<bool>)
    ensures (forall i :: 0 <= i < |input| ==> input[i] in "01") ==> ShowBits(ParseBits(input)) == input
    ensures ParseBits(ShowBits(bits)) == bits
  {
    if forall i :: 0 <= i < |input| ==> input[i] in "01" {
      var s := ShowBits(ParseBits(input));
      forall i | 0 <= i < |input| ensures s[i] == input[i] {
        assert input[i] in "01";
      }
    }
  }

  /** A dragon step keeps a as its prefix, then a 0, then the complement of
      a read backwards; the length becomes 2 |a| + 1. */
  lemma DragonShape(a: seq<bool>)
    ensures var r := DragonStep(a);
      |r| == 2 * |a| + 1 && r[..|a|] == a && !r[|a|]
      && forall i :: |a| < i < |r| ==> r[i] == !a[2 * |a| - i]
  {
    var r := DragonStep(a);
    forall i | |a| < i < |r| ensures r[i] == !a[2 * |a| - i] {
      assert r[i] == FlippedBack(a)[i - |a| - 1];
    }
  }

  /** The expansion loop makes progress: every step lengthens the data. */
  lemma DragonGrows(a: seq<bool>)
    ensures |DragonStep(a)| == 2 * |a| + 1 > |a|
  {
  }

  lemma {:induction false} CurveStep(a: seq<bool>, n: nat)
    ensures Curve(a, n + 1) == DragonStep(Curve(a, n))
    decreases n
  {
    if n > 0 {
      CurveStep(DragonStep(a), n - 1);
    }
  }

  /** After the loop the curve is at least `space` long. */
  lemma {:induction false} CurveReachesSpace(a: seq<bool>, space: nat)
    ensures |Curve(a, StepsNeeded(a, space))| >= space
    decreases space - |a|
  {
    DragonGrows(a);
    if |a| < space {
      CurveReachesSpace(DragonStep(a), space);
    }
  }

  /** A curve is a prefix of every longer curve grown from it. */
  lemma {:induction false} CurvePrefix(a: seq<bool>, n: nat, m: nat)
    requires n <= m
    ensures |Curve(a, n)| <= |Curve(a, m)|
    ensures Curve(a, m)[..|Curve(a, n)|] == Curve(a, n)
    decreases m
  {
    if m > n {
      CurvePrefix(a, n, m - 1);
      CurveStep(a, m - 1);
      DragonShape(Curve(a, m - 1));
    }
  }

  /** The disk holds exactly `space` bits, and they are a prefix of every
      curve grown from the input at least as far as the loop grew it. */
  lemma DiskDataIsPrefix(input: string, space: nat, m: nat)
    requires m >= StepsNeeded(ParseBits(input), space)
    ensures |DiskData(input, space)| == space
    ensures |Curve(ParseBits(input), m)| >= space
    ensures DiskData(input, space) == Curve(ParseBits(input), m)[..space]
  {
    var a := ParseBits(input);
    var n := StepsNeeded(a, space);
    CurveReachesSpace(a, space);
    CurvePrefix(a, n, m);
    assert Curve(a, m)[..space] == Curve(a, m)[..|Curve(a, n)|][..space];
  }

  /** The checksum stops at the first odd length: odd data is its own
      checksum, and even data is folded once more. */
  lemma ChecksumStopsAtOdd(d: seq<bool>)
    requires |d| > 0
    ensures |d| % 2 == 1 ==> Checksum(d) == d
    ensures |d| % 2 == 0 ==> Checksum(d) == Checksum(ChecksumStep(d))
  {
  }

  /** The checksum's length is the largest odd divisor of the data's length. */
  lemma {:induction false} ChecksumLength(d: seq<bool>)
    requires |d| > 0
    ensures |Checksum(d)| == OddPart(|d|)
    decreases |d|
  {
    if |d| % 2 == 0 {
      ChecksumLength(ChecksumStep(d));
    }
  }

  /** The sample disk from the puzzle: `10000` on a disk of 20 is filled
      with `10000011110010000111`. */
  lemma ExampleDisk()
    ensures DiskData("10000", 20) == [true, false, false, false, false, false, true, true, true, true, false, false, true, false, false, false, false, true, true, true]
  {
    var a := ParseBits("10000");
    assert a == [true, false, false, false, false];
    var c1 := DragonStep(a);
    assert StepsNeeded(a, 20) == StepsNeeded(c1, 20) + 1;
    var c2 := DragonStep(c1);
    assert StepsNeeded(c1, 20) == StepsNeeded(c2, 20) + 1;
    assert Curve(a, 2) == c2;
  }

  /** The sample checksum from the puzzle: `110010110100` folds to `110101`
      and then to `100`, which is odd and final. */
  lemma ExampleChecksum()
    ensures Checksum([true, true, false, false, true, false, true, true, false, true, false, false]) == [true, false, false]
  {
    var h1 := ChecksumStep([true, true, false, false, true, false, true, true, false, true, false, false]);
    assert h1 == [true, true, false, true, false, true];
    assert ChecksumStep(h1) == [true, false, false];
  }
}
