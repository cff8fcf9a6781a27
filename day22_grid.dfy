/** day22: a grid of storage nodes listed by `df`. Part 1 counts the
    viable pairs: ordered pairs of distinct nodes A and B where A holds
    some data and all of it fits in what B has left. */
module Grid {
  import opened Common
  import opened Text

  // ---------------------------------------------------------------------
  // Reading a node

  /** A node: its position, its name (the first column), and its size and
      used space in terabytes. */
  datatype Node = Node(position: (int, int), name: string, size: nat, used: nat)

  const IndexPanic := "index out of bounds"
  const NonePanic := "called `Option::unwrap()` on a `None` value"
  const ErrPanic := "called `Result::unwrap()` on an `Err` value"

  /** `Node::from`: the position from the name `...-xN-yM`, read first, then
      the size and the used space from the next two columns less their
      trailing `T`s. */
  function NodeOf(line: string): Result<Node> {
    NodeFrom(SplitWhitespace(line))
  }

  /** `Node::from` on the line's whitespace-separated columns. */
  function NodeFrom(components: seq<string>): Result<Node> {
    if |components| == 0 then Panic(IndexPanic)
    else
      match PositionOf(components[0])
      case Panic(why) => Panic(why)
      case Ok(position) =>
        if |components| < 2 then Panic(IndexPanic)
        else
          match Terabytes(components[1])
          case Panic(why) => Panic(why)
          case Ok(size) =>
            if |components| < 3 then Panic(IndexPanic)
            else
              match Terabytes(components[2])
              case Panic(why) => Panic(why)
              case Ok(used) => Ok(Node(position, components[0], size, used))
  }

  /** The position in a name `...-xN-yM`: split at the first `-` and then at
      the next, and parse each half less its leading letters. */
  function PositionOf(name: string): Result<(int, int)> {
    match SplitOnce(name, "-")
    case None => Panic(NonePanic)
    case Some((_, rest)) =>
      match SplitOnce(rest, "-")
      case None => Panic(NonePanic)
      case Some((xs, ys)) =>
        match ParseI32(TrimStartMatches(xs, "x"))
        case None => Panic(ErrPanic)
        case Some(x) =>
          match ParseI32(TrimStartMatches(ys, "y"))
          case None => Panic(ErrPanic)
          case Some(y) => Ok((x, y))
  }

  /** `trim_end_matches("T").parse::<u32>().unwrap()`. */
  function Terabytes(token: string): (r: Result<nat>)
    ensures r.Ok? <==> ParseU32(TrimEndMatches(token, "T")).Some?
    ensures r.Ok? ==> Some(r.value) == ParseU32(TrimEndMatches(token, "T"))
  {
    match ParseU32(TrimEndMatches(token, "T"))
    case None => Panic(ErrPanic)
    case Some(v) => Ok(v)
  }

  /** `lines.iter().skip(2).map(Node::from).collect_vec()`: the two header
      lines are skipped, and the first bad line after them panics. */
  function Nodes(lines: seq<string>): (r: Result<seq<Node>>)
    ensures r.Ok? ==> |r.value| == if |lines| <= 2 then 0 else |lines| - 2
    ensures r.Ok? ==> forall k :: 2 <= k < |lines| ==> NodeOf(lines[k]) == Ok(r.value[k - 2])
  {
    var listed := if |lines| <= 2 then [] else lines[2..];
    assert forall k :: 2 <= k < |lines| ==> listed[k - 2] == lines[k];
    CollectAll(listed, NodeOf)
  }

  // ---------------------------------------------------------------------
  // The `df` line of a node, and reading it back

  /** The name `df` lists for the node at (x, y). */
  function NodeName(x: nat, y: nat): string {
    "/dev/grid/node-x" + ShowNat(x) + "-y" + ShowNat(y)
  }

  /** A `df -h` line: name, size, used, available and use percentage. */
  function DfLine(x: nat, y: nat, size: nat, used: nat, avail: nat, percent: nat): string {
    Join([NodeName(x, y), ShowNat(size) + "T", ShowNat(used) + "T", ShowNat(avail) + "T", ShowNat(percent) + "%"], " ")
  }

  /** Reading a `df` line gives back the node it lists. */
  lemma ReadDfLine(x: nat, y: nat, size: nat, used: nat, avail: nat, percent: nat)
    requires x <= I32_MAX && y <= I32_MAX && size <= U32_MAX && used <= U32_MAX
    ensures NodeOf(DfLine(x, y, size, used, avail, percent)) == Ok(Node((x, y), NodeName(x, y), size, used))
  {
    DfTokens(x, y, size, used, avail, percent);
    ReadColumns(SplitWhitespace(DfLine(x, y, size, used, avail, percent)), x, y, size, used);
  }

  /** The node read from columns that start with its name, size and used
      space. */
  lemma ReadColumns(components: seq<string>, x: nat, y: nat, size: nat, used: nat)
    requires x <= I32_MAX && y <= I32_MAX && size <= U32_MAX && used <= U32_MAX
    requires |components| >= 3 && components[0] == NodeName(x, y)
    requires components[1] == ShowNat(size) + "T" && components[2] == ShowNat(used) + "T"
    ensures NodeFrom(components) == Ok(Node((x, y), NodeName(x, y), size, used))
  {
    ReadName(x, y);
    TrimUnit(ShowNat(size));
    TrimUnit(ShowNat(used));
    ParseShowNat(size, U32_MAX);
    ParseShowNat(used, U32_MAX);
  }

  /** The columns of a `df` line. */
  lemma DfTokens(x: nat, y: nat, size: nat, used: nat, avail: nat, percent: nat)
    ensures SplitWhitespace(DfLine(x, y, size, used, avail, percent))
      == [NodeName(x, y), ShowNat(size) + "T", ShowNat(used) + "T", ShowNat(avail) + "T", ShowNat(percent) + "%"]
  {
    var sx, sy := ShowNat(x), ShowNat(y);
    DigitsPlain(sx);
    DigitsPlain(sy);
    DigitsPlain(ShowNat(size));
    DigitsPlain(ShowNat(used));
    DigitsPlain(ShowNat(avail));
    DigitsPlain(ShowNat(percent));
    PlainConcat("/dev/grid/node-x", sx);
    PlainConcat("/dev/grid/node-x" + sx, "-y");
    PlainConcat("/dev/grid/node-x" + sx + "-y", sy);
    PlainConcat(ShowNat(size), "T");
    PlainConcat(ShowNat(used), "T");
    PlainConcat(ShowNat(avail), "T");
    PlainConcat(ShowNat(percent), "%");
    SplitJoinedTokens([NodeName(x, y), ShowNat(size) + "T", ShowNat(used) + "T", ShowNat(avail) + "T", ShowNat(percent) + "%"]);
  }

  /** The position read back from a node's name. */
  lemma ReadName(x: nat, y: nat)
    requires x <= I32_MAX && y <= I32_MAX
    ensures PositionOf(NodeName(x, y)) == Ok((x, y))
  {
    NameParts(x, y);
    var sx, sy := ShowNat(x), ShowNat(y);
    PositionFromParts(NodeName(x, y), "/dev/grid/node", "x" + sx + "-y" + sy, "x" + sx, "y" + sy, x, y);
  }

  lemma PositionFromParts(name: string, before: string, rest: string, xs: string, ys: string, x: int, y: int)
    requires SplitOnce(name, "-") == Some((before, rest)) && SplitOnce(rest, "-") == Some((xs, ys))
    requires ParseI32(TrimStartMatches(xs, "x")) == Some(x) && ParseI32(TrimStartMatches(ys, "y")) == Some(y)
    ensures PositionOf(name) == Ok((x, y))
  {
  }

  /** The pieces of a node's name: the two splits and the two numbers. */
  lemma NameParts(x: nat, y: nat)
    requires x <= I32_MAX && y <= I32_MAX
    ensures SplitOnce(NodeName(x, y), "-") == Some(("/dev/grid/node", "x" + ShowNat(x) + "-y" + ShowNat(y)))
    ensures SplitOnce("x" + ShowNat(x) + "-y" + ShowNat(y), "-") == Some(("x" + ShowNat(x), "y" + ShowNat(y)))
    ensures ParseI32(TrimStartMatches("x" + ShowNat(x), "x")) == Some(x)
    ensures ParseI32(TrimStartMatches("y" + ShowNat(y), "y")) == Some(y)
  {
    var sx, sy := ShowNat(x), ShowNat(y);
    FirstSplit("x" + sx + "-y" + sy);
    assert NodeName(x, y) == "/dev/grid/node" + "-" + ("x" + sx + "-y" + sy);
    SecondSplit(sx, sy);
    ReadLetterNumber('x', x);
    ReadLetterNumber('y', y);
  }

  lemma FirstSplit(rest: string)
    ensures SplitOnce("/dev/grid/node" + "-" + rest, "-") == Some(("/dev/grid/node", rest))
  {
    SplitAtFirst("/dev/grid/node", '-', rest);
  }

  lemma SecondSplit(sx: string, sy: string)
    requires AllDigits(sx)
    ensures SplitOnce("x" + sx + "-y" + sy, "-") == Some(("x" + sx, "y" + sy))
  {
    DigitsNoDash(sx);
    assert '-' !in "x" + sx by {
      assert forall k :: 0 < k < |sx| + 1 ==> ("x" + sx)[k] == sx[k - 1];
    }
    assert "x" + sx + "-y" + sy == ("x" + sx) + "-" + ("y" + sy);
    SplitAtFirst("x" + sx, '-', "y" + sy);
  }

  /** A number after a letter reads back once the letter is trimmed. */
  lemma ReadLetterNumber(c: char, n: nat)
    requires !IsDigit(c) && n <= I32_MAX
    ensures ParseI32(TrimStartMatches([c] + ShowNat(n), [c])) == Some(n)
  {
    TrimLetter(c, ShowNat(n));
    ParseShowInt(n, I32_MIN, I32_MAX);
    assert ShowInt(n) == ShowNat(n);
  }

  lemma DigitsPlain(s: string)
    requires AllDigits(s)
    ensures NoWhitespace(s)
  {
  }

  lemma DigitsNoDash(s: string)
    requires AllDigits(s)
    ensures '-' !in s
  {
  }

  lemma PlainConcat(a: string, b: string)
    requires NoWhitespace(a) && NoWhitespace(b)
    ensures NoWhitespace(a + b)
  {
    assert forall k :: |a| <= k < |a + b| ==> (a + b)[k] == b[k - |a|];
  }

  /** `split_once` at a character not in p, of p, the character and q. */
  lemma SplitAtFirst(p: string, c: char, q: string)
    requires c !in p
    ensures SplitOnce(p + [c] + q, [c]) == Some((p, q))
  {
    var s := p + [c] + q;
    assert s[|p|..|p| + 1] == [c];
    assert MatchAt(s, [c], |p|);
    IndexOfMeaning(s, [c]);
    var i := IndexOf(s, [c]).value;
    forall k: nat | k < |p| ensures !MatchAt(s, [c], k) {
      assert s[k..k + 1] == [p[k]];
      assert p[k] in p;
    }
    assert i == |p|;
    assert s[..i] == p;
    assert s[i + 1..] == q;
  }

  /** `trim_start_matches` of a letter before digits leaves the digits. */
  lemma TrimLetter(c: char, digits: string)
    requires digits != [] && AllDigits(digits) && !IsDigit(c)
    ensures TrimStartMatches([c] + digits, [c]) == digits
  {
    var s := [c] + digits;
    assert s[..1] == [c] && s[1..] == digits;
    assert digits[..1] != [c] by {
      assert digits[..1][0] == digits[0];
    }
  }

  /** `trim_end_matches("T")` of digits and a `T` leaves the digits. */
  lemma TrimUnit(digits: string)
    requires digits != [] && AllDigits(digits)
    ensures TrimEndMatches(digits + "T", "T") == digits
  {
    var s := digits + "T";
    assert s[|s| - 1..] == "T" && s[..|s| - 1] == digits;
    assert digits[|digits| - 1..] != "T" by {
      assert digits[|digits| - 1..][0] == digits[|digits| - 1];
    }
  }

  // ---------------------------------------------------------------------
  // Viable pairs

  /** Node a is not node b, a holds data, and all of it fits in what b has
      left. */
  predicate Viable(nodes: seq<Node>, a: nat, b: nat)
    requires a < |nodes| && b < |nodes|
  {
    a != b && nodes[a].used > 0 && nodes[b].used + nodes[a].used <= nodes[b].size
  }

  /** The partners b < j that node a is viable with, counted the way the
      inner loop does. */
  function RowUpTo(nodes: seq<Node>, a: nat, j: nat): nat
    requires a < |nodes| && j <= |nodes|
  {
    if j == 0 then 0 else RowUpTo(nodes, a, j - 1) + (if Viable(nodes, a, j - 1) then 1 else 0)
  }

  /** The viable pairs whose first node comes before i. */
  function PairsUpTo(nodes: seq<Node>, i: nat): nat
    requires i <= |nodes|
  {
    if i == 0 then 0 else PairsUpTo(nodes, i - 1) + RowUpTo(nodes, i - 1, |nodes|)
  }

  /** A node with no data is viable with no partner: the outer loop's
      `continue`. */
  lemma {:induction false} RowEmpty(nodes: seq<Node>, a: nat, j: nat)
    requires a < |nodes| && j <= |nodes| && nodes[a].used == 0
    ensures RowUpTo(nodes, a, j) == 0
  {
    if j > 0 {
      RowEmpty(nodes, a, j - 1);
    }
  }

  /** The nested loops of Part 1. */
  method CountViable(nodes: seq<Node>) returns (validPairs: nat)
    ensures validPairs == PairsUpTo(nodes, |nodes|)
  {
    validPairs := 0;
    for i := 0 to |nodes|
      invariant validPairs == PairsUpTo(nodes, i)
    {
      if nodes[i].used == 0 {
        RowEmpty(nodes, i, |nodes|);
        continue;
      }
      ghost var before := validPairs;
      for j := 0 to |nodes|
        invariant validPairs == before + RowUpTo(nodes, i, j)
      {
        if i == j {
          continue;
        }
        if nodes[j].used + nodes[i].used <= nodes[j].size {
          validPairs := validPairs + 1;
        }
      }
    }
  }

  /** The pairs (a, b) with b < j that are viable. */
  ghost function RowPairs(nodes: seq<Node>, a: nat, j: nat): set<(nat, nat)>
    requires a < |nodes| && j <= |nodes|
  {
    set b: nat | b < j && Viable(nodes, a, b) :: (a, b)
  }

  /** The viable pairs whose first node comes before i. */
  ghost function Pairs(nodes: seq<Node>, i: nat): set<(nat, nat)>
    requires i <= |nodes|
  {
    set a: nat, b: nat | a < i && b < |nodes| && Viable(nodes, a, b) :: (a, b)
  }

  lemma {:induction false} RowPairsCount(nodes: seq<Node>, a: nat, j: nat)
    requires a < |nodes| && j <= |nodes|
    ensures |RowPairs(nodes, a, j)| == RowUpTo(nodes, a, j)
  {
    if j == 0 {
      assert RowPairs(nodes, a, j) == {};
    } else {
      RowPairsCount(nodes, a, j - 1);
      var before := RowPairs(nodes, a, j - 1);
      assert (a, j - 1) !in before;
      if Viable(nodes, a, j - 1) {
        assert RowPairs(nodes, a, j) == before + {(a, j - 1)};
      } else {
        assert RowPairs(nodes, a, j) == before;
      }
    }
  }

  /** The count is the number of ordered viable pairs. */
  lemma {:induction false} PairsCount(nodes: seq<Node>, i: nat)
    requires i <= |nodes|
    ensures |Pairs(nodes, i)| == PairsUpTo(nodes, i)
  {
    if i == 0 {
      assert Pairs(nodes, i) == {};
    } else {
      PairsCount(nodes, i - 1);
      RowPairsCount(nodes, i - 1, |nodes|);
      var row := RowPairs(nodes, i - 1, |nodes|);
      assert Pairs(nodes, i) == Pairs(nodes, i - 1) + row;
      assert Pairs(nodes, i - 1) * row == {};
    }
  }

  /** Node a counts at most one partner for each other node. */
  lemma {:induction false} RowBound(nodes: seq<Node>, a: nat, j: nat)
    requires a < |nodes| && j <= |nodes|
    ensures RowUpTo(nodes, a, j) <= if a < j then j - 1 else j
  {
    if j > 0 {
      RowBound(nodes, a, j - 1);
    }
  }

  /** At most n(n - 1) pairs: every ordered pair of distinct nodes. */
  lemma {:induction false} PairsBound(nodes: seq<Node>, i: nat)
    requires i <= |nodes|
    ensures PairsUpTo(nodes, i) <= i * (|nodes| - 1)
  {
    if i > 0 {
      PairsBound(nodes, i - 1);
      RowBound(nodes, i - 1, |nodes|);
      assert i * (|nodes| - 1) == (i - 1) * (|nodes| - 1) + (|nodes| - 1);
    }
  }

  /** The number of ordered pairs of distinct nodes among n. */
  function OrderedPairs(n: nat): nat {
    if n == 0 then 0 else n * (n - 1)
  }

  /** Part 1: the nodes after the header lines, then their viable pairs. */
  method Solve(lines: seq<string>) returns (r: Result<nat>)
    ensures r.Panic? <==> Nodes(lines).Panic?
    ensures r.Ok? ==> r.value == |Pairs(Nodes(lines).value, |Nodes(lines).value|)|
    ensures r.Ok? ==> r.value <= OrderedPairs(|Nodes(lines).value|)
  {
    var nodes := Nodes(lines);
    if nodes.Panic? {
      return Panic(nodes.reason);
    }
    var count := Part1(nodes.value);
    r := Ok(count);
  }

  /** The count over the parsed nodes. */
  method Part1(nodes: seq<Node>) returns (count: nat)
    ensures count == |Pairs(nodes, |nodes|)| && count <= OrderedPairs(|nodes|)
  {
    count := CountViable(nodes);
    PairsCount(nodes, |nodes|);
    PairsBound(nodes, |nodes|);
  }
}
