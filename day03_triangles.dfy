/** day03: which listed triples can be the sides of a triangle. Part 1
    reads one triple per line; Part 2 reads the numbers down each of the
    three columns, three at a time. */
module Triangles {
  import opened Common
  import opened Text
  import opened Sorting

  // ---------------------------------------------------------------------
  // Reading the numbers

  /** `v.parse::<i32>().unwrap()`. */
  function SideOf(token: string): (r: Result<int>)
    ensures r.Ok? <==> ParseI32(token).Some?
    ensures r.Ok? ==> InI32(r.value) && Some(r.value) == ParseI32(token)
  {
    match ParseI32(token)
    case None => Panic("called `Result::unwrap()` on an `Err` value")
    case Some(v) => Ok(v)
  }

  predicate InI32(x: int) { I32_MIN <= x <= I32_MAX }

  /** The numbers of one line, in order. */
  function Sides(line: string): Result<seq<int>> {
    CollectAll(SplitWhitespace(line), SideOf)
  }

  // ---------------------------------------------------------------------
  // The triangle test

  function IntLe(a: int, b: int): bool { a <= b }

  lemma IntLeTotal()
    ensures TotalPreorder(IntLe)
  {
  }

  /** `sides.sort()`. */
  function SortSides(sides: seq<int>): (r: seq<int>)
    ensures SortedBy(r, IntLe) && multiset(r) == multiset(sides) && |r| == |sides|
  {
    IntLeTotal();
    SortBy(sides, IntLe)
  }

  /** The filter's `sides[0] + sides[1] > sides[2]` after sorting, read
      left to right: the first two indexes, the `i32` addition, the third
      index. */
  function IsTriangle(sides: seq<int>): Result<bool> {
    var s := SortSides(sides);
    if |s| < 2 then Panic("index out of bounds")
    else if !InI32(s[0] + s[1]) then Panic("attempt to add with overflow")
    else if |s| < 3 then Panic("index out of bounds")
    else Ok(s[0] + s[1] > s[2])
  }

  /** The triangle inequality, in every direction. */
  predicate Triangle(a: int, b: int, c: int) {
    a + b > c && a + c > b && b + c > a
  }

  function Sum(s: seq<int>): int
    decreases |s|
  {
    if s == [] then 0 else s[0] + Sum(s[1..])
  }

  lemma {:induction false} SumConcat(x: seq<int>, y: seq<int>)
    ensures Sum(x + y) == Sum(x) + Sum(y)
    decreases |x|
  {
    if x != [] {
      assert (x + y)[1..] == x[1..] + y;
      SumConcat(x[1..], y);
    } else {
      assert x + y == y;
    }
  }

  /** Reordering does not change the sum. */
  lemma {:induction false} SumPermutation(p: seq<int>, q: seq<int>)
    requires multiset(p) == multiset(q)
    ensures Sum(p) == Sum(q)
    decreases |p|
  {
    if p == [] {
      assert |q| == |multiset(q)| == 0;
    } else {
      assert p[0] in multiset(q);
      var k :| 0 <= k < |q| && q[k] == p[0];
      var rest := q[..k] + q[k + 1..];
      assert q == q[..k] + [q[k]] + q[k + 1..];
      SumConcat(q[..k] + [q[k]], q[k + 1..]);
      SumConcat(q[..k], [q[k]]);
      SumConcat(q[..k], q[k + 1..]);
      assert Sum([q[k]]) == q[k];
      assert p == [p[0]] + p[1..];
      assert multiset(rest) == multiset(q) - multiset{p[0]};
      assert multiset(p[1..]) == multiset(p) - multiset{p[0]};
      SumPermutation(p[1..], rest);
    }
  }

  function Max3(a: int, b: int, c: int): int {
    if a >= b && a >= c then a else if b >= c then b else c
  }

  lemma SumOfThree(t: seq<int>)
    requires |t| == 3
    ensures Sum(t) == t[0] + t[1] + t[2]
  {
    assert t[1..][0] == t[1] && t[1..][1..][0] == t[2] && t[1..][1..][1..] == [];
    assert Sum(t[1..][1..]) == t[2] + Sum([]);
    assert Sum(t[1..]) == t[1] + Sum(t[1..][1..]);
  }

  /** A sorted arrangement of three sides: the last is the largest, and
      the first two add up to the others. */
  lemma SortedTriple(s: seq<int>, sides: seq<int>)
    requires |sides| == 3 && SortedBy(s, IntLe) && multiset(s) == multiset(sides)
    ensures |s| == 3 && s[2] == Max3(sides[0], sides[1], sides[2])
    ensures s[0] + s[1] == sides[0] + sides[1] + sides[2] - s[2]
  {
    assert |s| == |multiset(s)| == |multiset(sides)| == 3;
    SumPermutation(s, sides);
    SumOfThree(s);
    SumOfThree(sides);
    assert s[2] in s;
    assert s[2] in multiset(sides);
    assert s[2] in sides;
    assert sides[0] in sides && sides[1] in sides && sides[2] in sides;
    assert sides[0] in multiset(s) && sides[1] in multiset(s) && sides[2] in multiset(s);
    assert sides[0] in s && sides[1] in s && sides[2] in s;
  }

  /** For three sides the test is the triangle inequality: the two smallest
      sides together are longer than the largest exactly when every two
      sides together are longer than the third. */
  lemma TriangleTest(sides: seq<int>)
    requires |sides| == 3 && IsTriangle(sides).Ok?
    ensures IsTriangle(sides).value <==> Triangle(sides[0], sides[1], sides[2])
  {
    SortedTriple(SortSides(sides), sides);
  }

  /** The test fails on fewer than three sides, and on the overflow of the
      two smallest; otherwise it decides. */
  lemma TriangleDefined(sides: seq<int>)
    ensures IsTriangle(sides).Ok? <==> |sides| >= 3 && InI32(SortSides(sides)[0] + SortSides(sides)[1])
  {
  }

  /** The order the sides are listed in does not matter. */
  lemma TriangleOrderFree(p: seq<int>, q: seq<int>)
    requires multiset(p) == multiset(q)
    ensures IsTriangle(p) == IsTriangle(q)
  {
    SortedUnique(SortSides(p), SortSides(q), IntLe);
  }

  // ---------------------------------------------------------------------
  // Part 1

  /** One line of `map(parse).filter(test)`: parsed, then tested. */
  function CheckLine(line: string): Result<bool> {
    match Sides(line)
    case Panic(why) => Panic(why)
    case Ok(sides) => IsTriangle(sides)
  }

  /** `.count()` from line k on, one line after the other: the first panic
      stops the count. */
  function CountChecked(lines: seq<string>, check: string -> Result<bool>, k: nat): Result<nat>
    decreases |lines| - k
  {
    if k >= |lines| then Ok(0)
    else
      match check(lines[k])
      case Panic(why) => Panic(why)
      case Ok(valid) =>
        match CountChecked(lines, check, k + 1)
        case Panic(why) => Panic(why)
        case Ok(n) => Ok(if valid then n + 1 else n)
  }

  /** Part 1: the count over every line. */
  function CountRows(lines: seq<string>): Result<nat> {
    CountChecked(lines, CheckLine, 0)
  }

  /** The line passes: its numbers read and pass the test. */
  predicate Passes(line: string) {
    CheckLine(line) == Ok(true)
  }

  /** How many elements from index lo on satisfy p. */
  function CountFrom<T>(xs: seq<T>, p: T -> bool, lo: nat): nat
    decreases |xs| - lo
  {
    if lo >= |xs| then 0 else (if p(xs[lo]) then 1 else 0) + CountFrom(xs, p, lo + 1)
  }

  /** The indexes from lo on whose element satisfies p. */
  ghost function IndexesFrom<T>(xs: seq<T>, p: T -> bool, lo: nat): set<nat> {
    set k | lo <= k < |xs| && p(xs[k])
  }

  lemma {:induction false} CountFromMeaning<T>(xs: seq<T>, p: T -> bool, lo: nat)
    ensures CountFrom(xs, p, lo) == |IndexesFrom(xs, p, lo)|
    decreases |xs| - lo
  {
    if lo < |xs| {
      CountFromMeaning(xs, p, lo + 1);
      var rest := IndexesFrom(xs, p, lo + 1);
      assert lo !in rest;
      if p(xs[lo]) {
        assert IndexesFrom(xs, p, lo) == rest + {lo};
      } else {
        assert IndexesFrom(xs, p, lo) == rest;
      }
    } else {
      assert IndexesFrom(xs, p, lo) == {};
    }
  }

  /** The count from line k on is the number of lines there that pass. */
  lemma {:induction false} CountCheckedFrom(lines: seq<string>, check: string -> Result<bool>, p: string -> bool, k: nat)
    requires forall line :: p(line) <==> check(line) == Ok(true)
    requires CountChecked(lines, check, k).Ok?
    ensures CountChecked(lines, check, k).value == CountFrom(lines, p, k)
    decreases |lines| - k
  {
    if k < |lines| {
      CountCheckedFrom(lines, check, p, k + 1);
    }
  }

  /** A count that gets to the end has checked every line without panic. */
  lemma {:induction false} CountCheckedTotal(lines: seq<string>, check: string -> Result<bool>, k: nat)
    requires CountChecked(lines, check, k).Ok?
    ensures forall j :: k <= j < |lines| ==> check(lines[j]).Ok?
    decreases |lines| - k
  {
    if k < |lines| {
      CountCheckedTotal(lines, check, k + 1);
    }
  }

  /** Part 1 reads and tests every line when it gets to print. */
  lemma CountRowsTotal(lines: seq<string>)
    requires CountRows(lines).Ok?
    ensures forall k :: 0 <= k < |lines| ==> Sides(lines[k]).Ok? && IsTriangle(Sides(lines[k]).value).Ok?
  {
    CountCheckedTotal(lines, CheckLine, 0);
  }

  /** Part 1 counts exactly the lines whose triple passes. */
  lemma CountRowsMeaning(lines: seq<string>)
    requires CountRows(lines).Ok?
    ensures CountRows(lines).value == |set k | 0 <= k < |lines| && Passes(lines[k])|
  {
    CountCheckedFrom(lines, CheckLine, Passes, 0);
    CountFromMeaning(lines, Passes, 0);
    assert IndexesFrom(lines, Passes, 0) == set k | 0 <= k < |lines| && Passes(lines[k]);
  }

  // ---------------------------------------------------------------------
  // Part 2

  /** `flat_map`: every number of every line, in order. */
  function AllValues(lines: seq<string>): Result<seq<int>>
    decreases |lines|
  {
    if lines == [] then Ok([])
    else
      match Sides(lines[0])
      case Panic(why) => Panic(why)
      case Ok(sides) =>
        match AllValues(lines[1..])
        case Panic(why) => Panic(why)
        case Ok(rest) => Ok(sides + rest)
  }

  /** `skip(i).step_by(3)`: the values at i, i + 3, i + 6, and so on. */
  function Column(values: seq<int>, i: nat): (r: seq<int>)
    decreases |values| - i
  {
    if i >= |values| then [] else [values[i]] + Column(values, i + 3)
  }

  lemma {:induction false} ColumnAt(values: seq<int>, i: nat, k: nat)
    requires k < |Column(values, i)|
    ensures i + 3 * k < |values| && Column(values, i)[k] == values[i + 3 * k]
    decreases |values| - i
  {
    if k > 0 {
      ColumnAt(values, i + 3, k - 1);
    }
  }

  lemma {:induction false} ColumnLength(values: seq<int>, i: nat)
    ensures |Column(values, i)| == if i >= |values| then 0 else (|values| - i + 2) / 3
    decreases |values| - i
  {
    if i < |values| {
      ColumnLength(values, i + 3);
    }
  }

  /** The fold's closure: start a new group when there is none or the last
      one is full, then push v onto the last group. */
  function Push(acc: seq<seq<int>>, v: int): (r: seq<seq<int>>)
    ensures r != []
  {
    if acc == [] || |acc[|acc| - 1]| == 3 then acc + [[v]]
    else acc[..|acc| - 1] + [acc[|acc| - 1] + [v]]
  }

  /** The fold from `Vec::new()` over a column. */
  function Fold(acc: seq<seq<int>>, column: seq<int>): seq<seq<int>>
    decreases |column|
  {
    if column == [] then acc else Fold(Push(acc, column[0]), column[1..])
  }

  /** The runs of three the fold should build: three values at a time,
      the remainder, if any, last. */
  function Chunks(column: seq<int>): (r: seq<seq<int>>)
    decreases |column|
  {
    if |column| <= 3 then (if column == [] then [] else [column])
    else [column[..3]] + Chunks(column[3..])
  }

  /** Groups of 1 to 3 values where only the last may be short. */
  predicate WellGrouped(groups: seq<seq<int>>) {
    (forall g :: 0 <= g < |groups| ==> 1 <= |groups[g]| <= 3) &&
    (forall g :: 0 <= g < |groups| - 1 ==> |groups[g]| == 3)
  }

  function Flatten(groups: seq<seq<int>>): seq<int>
    decreases |groups|
  {
    if groups == [] then [] else groups[0] + Flatten(groups[1..])
  }

  lemma {:induction false} FlattenPush(groups: seq<seq<int>>, last: seq<int>)
    ensures Flatten(groups + [last]) == Flatten(groups) + last
    decreases |groups|
  {
    if groups == [] {
      assert [] + [last] == [last];
      assert Flatten([last]) == last + Flatten([]);
    } else {
      assert (groups + [last])[1..] == groups[1..] + [last];
      FlattenPush(groups[1..], last);
    }
  }

  /** Folding onto groups whose last one is full (or onto no group)
      appends the chunks of the rest. */
  lemma {:induction false} FoldFull(acc: seq<seq<int>>, column: seq<int>)
    requires acc == [] || |acc[|acc| - 1]| == 3
    ensures Fold(acc, column) == acc + Chunks(column)
    decreases |column|, 1
  {
    if column != [] {
      var next := acc + [[column[0]]];
      assert Push(acc, column[0]) == next;
      assert next[..|next| - 1] == acc;
      FoldOpen(next, column[1..]);
      assert [column[0]] + column[1..] == column;
    }
  }

  /** Folding onto groups whose last one is open continues that group:
      the rest of the column is chunked together with it. */
  lemma {:induction false} FoldOpen(acc: seq<seq<int>>, column: seq<int>)
    requires acc != [] && 1 <= |acc[|acc| - 1]| < 3
    ensures Fold(acc, column) == acc[..|acc| - 1] + Chunks(acc[|acc| - 1] + column)
    decreases |column|, 0
  {
    var n := |acc|;
    var last := acc[n - 1];
    if column == [] {
      assert last + [] == last;
      assert acc == acc[..n - 1] + [last];
    } else {
      var grown := last + [column[0]];
      var next := acc[..n - 1] + [grown];
      assert Push(acc, column[0]) == next;
      assert next[..n - 1] == acc[..n - 1] && next[n - 1] == grown;
      assert grown + column[1..] == last + column;
      if |grown| == 3 {
        FoldFull(next, column[1..]);
        if |last + column| > 3 {
          assert (last + column)[..3] == grown;
          assert (last + column)[3..] == column[1..];
          assert Chunks(last + column) == [grown] + Chunks(column[1..]);
        } else {
          assert column[1..] == [] && last + column == grown;
          assert Chunks(grown) == [grown];
        }
        assert next + Chunks(column[1..]) == acc[..n - 1] + ([grown] + Chunks(column[1..]));
      } else {
        FoldOpen(next, column[1..]);
      }
    }
  }

  /** The fold from no groups builds exactly the chunks of three. */
  lemma FoldIsChunks(column: seq<int>)
    ensures Fold([], column) == Chunks(column)
  {
    FoldFull([], column);
  }

  /** The values of a column, read down the groups, are the column, and
      the groups are three values each but the last. */
  lemma ChunksMeaning(column: seq<int>)
    ensures Flatten(Chunks(column)) == column && WellGrouped(Chunks(column))
    decreases |column|
  {
    if |column| > 3 {
      ChunksMeaning(column[3..]);
      assert column == column[..3] + column[3..];
    } else if column != [] {
      assert Flatten([column]) == column + Flatten([]);
    }
  }

  /** Part 2's count over the groups of one column: each group is tested in
      turn, and a short last group panics at `sides[2]`. */
  function CountGroups(groups: seq<seq<int>>, test: seq<int> -> Result<bool>): Result<nat>
    decreases |groups|
  {
    if groups == [] then Ok(0)
    else
      match test(groups[0])
      case Panic(why) => Panic(why)
      case Ok(valid) =>
        match CountGroups(groups[1..], test)
        case Panic(why) => Panic(why)
        case Ok(n) => Ok(if valid then n + 1 else n)
  }

  /** The count of column i. */
  function ColumnCount(values: seq<int>, i: nat, test: seq<int> -> Result<bool>): Result<nat> {
    CountGroups(Fold([], Column(values, i)), test)
  }

  /** Part 2: the counts of the columns from `from` on added to `acc`,
      the first panic stopping the sum. */
  function ColumnsTotal(values: seq<int>, from: nat, acc: nat, test: seq<int> -> Result<bool>): Result<nat>
    requires from <= 3
    decreases 3 - from
  {
    if from == 3 then Ok(acc)
    else
      match ColumnCount(values, from, test)
      case Panic(why) => Panic(why)
      case Ok(n) => ColumnsTotal(values, from + 1, acc + n, test)
  }

  /** The `for i in 0..3` loop adding each column's count, each group
      judged by the triangle test. */
  method Part2(values: seq<int>) returns (r: Result<nat>)
    ensures r == ColumnsTotal(values, 0, 0, IsTriangle)
  {
    r := AddColumns(values, IsTriangle);
  }

  /** The loop for any test of a group. */
  method AddColumns(values: seq<int>, test: seq<int> -> Result<bool>) returns (r: Result<nat>)
    ensures r == ColumnsTotal(values, 0, 0, test)
  {
    var validCount := 0;
    for i := 0 to 3
      invariant ColumnsTotal(values, i, validCount, test) == ColumnsTotal(values, 0, 0, test)
    {
      var count := ColumnCount(values, i, test);
      if count.Panic? {
        return Panic(count.reason);
      }
      validCount := validCount + count.value;
    }
    r := Ok(validCount);
  }

  /** The Part 2 total is the sum of the three column counts, and it is
      printed only when no column panics. */
  lemma Part2Sum(values: seq<int>, test: seq<int> -> Result<bool>)
    ensures ColumnsTotal(values, 0, 0, test).Ok? <==>
      ColumnCount(values, 0, test).Ok? && ColumnCount(values, 1, test).Ok? && ColumnCount(values, 2, test).Ok?
    ensures ColumnsTotal(values, 0, 0, test).Ok? ==>
      ColumnsTotal(values, 0, 0, test).value
        == ColumnCount(values, 0, test).value + ColumnCount(values, 1, test).value + ColumnCount(values, 2, test).value
  {
    assert ColumnsTotal(values, 0, 0, test) == match ColumnCount(values, 0, test)
      case Panic(why) => Panic(why) case Ok(n) => ColumnsTotal(values, 1, n, test);
    if ColumnCount(values, 0, test).Ok? {
      var n0 := ColumnCount(values, 0, test).value;
      assert ColumnsTotal(values, 1, n0, test) == match ColumnCount(values, 1, test)
        case Panic(why) => Panic(why) case Ok(n) => ColumnsTotal(values, 2, n0 + n, test);
      if ColumnCount(values, 1, test).Ok? {
        var n1 := ColumnCount(values, 1, test).value;
        assert ColumnsTotal(values, 2, n0 + n1, test) == match ColumnCount(values, 2, test)
          case Panic(why) => Panic(why) case Ok(n) => ColumnsTotal(values, 3, n0 + n1 + n, test);
      }
    }
  }

  /** What the program prints: Part 1, and then Part 2 or its panic. */
  datatype Report = Report(part1: nat, part2: Result<nat>)

  function Answer(lines: seq<string>): Result<Report> {
    match CountRows(lines)
    case Panic(why) => Panic(why)
    case Ok(part1) =>
      match AllValues(lines)
      case Panic(why) => Panic(why)
      case Ok(values) => Ok(Report(part1, ColumnsTotal(values, 0, 0, IsTriangle)))
  }

  method Solve(lines: seq<string>) returns (r: Result<Report>)
    ensures r == Answer(lines)
  {
    var part1 := CountRows(lines);
    if part1.Panic? {
      return Panic(part1.reason);
    }
    var values := AllValues(lines);
    if values.Panic? {
      return Panic(values.reason);
    }
    var part2 := Part2(values.value);
    r := Ok(Report(part1.value, part2));
  }
}
